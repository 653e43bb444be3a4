# healthchain-bridge, modelled in Dafny

healthchain-bridge is a web front end for patient health records. Patients and doctors sign up
through a hosted identity and database service (Supabase). Patients keep vital-sign readings and
medical documents on a smart contract, and document contents go to the Pinata IPFS pinning
service. Patients grant doctors access to their records, and doctors see their shared patients'
readings as charts.

This project models the logic of that front end:

- the session context every page reads;
- the table queries and writes of the database helper, including the patient–doctor access relation;
- the pinning client;
- the form validators, list transformations, guards and submit sequences of the patient, doctor,
  dashboard, sign-up and change-password pages.

Answers from the outside services are parameters of the model: the identity service, the
database, the wallet, the contract and the pinning service.

Layout, one module per file:

- `wrappers.dfy` (`Wrappers`): `Option` and `Result`.
- `text.dfy` (`Text`): the JavaScript string built-ins the pages use — truthiness, `trim`,
  `split` on one character, `join`, `pop`, `substring`, `slice`.
- `collections.dfy` (`Collections`): `filter`, the stable newest-first `sort`, `reverse`.
- `supabase.dfy` (`Supabase`): records, the configuration fallback, the profile lookup and
  update, the access table (a class whose grant and revoke change its rows) and the
  profile-photo path.
- `pinata.dfy` (`Pinata`): the gateway URL, the credential guard, upload, metadata lookup and unpin.
- `auth_context.dfy` (`AuthContext`): the six-field session.
  - Each update is a function on `SessionState`.
  - The `Session` class performs each update field by field and is proved to agree with its function.
  - Event-sequence lemmas cover whole runs.
- One module per page: `patient_vitals.dfy`, `patient_documents.dfy`, `doctor_patients.dfy`,
  `dashboard.dfy`, `patient_profile.dfy`, `doctor_profile.dfy`, `sign_up.dfy`, `change_password.dfy`.
  - Each page is a class holding its state fields.
  - Loading and submitting are methods that take the outside answers as parameters.
  - Each submit sequence is also a pure function giving the calls it makes, so lemmas can reason about it.

Instants (`recorded_at`, `dou`, grant and revoke times) are integers. A chart point keeps the
reading's instant, where the page shows a formatted date. Weights are reals.

Where the code and the system's written design differ, the model follows the code:

- `refreshUser` never adopts a wallet address stored on the user record.
- `connectWallet` never writes a found address back to the user record.
- Overlapping refreshes are not guarded against stale results.
- A failed profile fetch keeps the previous profiles, even ones left by a different user
  (`AuthContext.StaleProfileSurvivesFailedFetch`).
- `connectWallet` answers `null` for a refusal and for an exception alike.
- A doctor profile form accepts any phone of at least 10 characters. The patient form
  requires exactly 10 (`DoctorProfile.PhoneRulesDiffer`).
- The password rule `^(?=.*[a-z])(?=.*[A-Z])(?=.*\d)` only looks at the text before the first
  line break, because `.` does not match line terminators. `SignUp.Lookahead` models this
  exactly, and on one-line passwords it reduces to plain membership (`SignUp.OneLineLookahead`).

## Model

| member | source | states |
|---|---|---|
| Text.TrimShape | src/pages/DoctorProfile.tsx:98 | `trim` keeps one contiguous piece of its input that neither starts nor ends with ECMAScript white space, and everything it removes before or after that piece is white space |
| Text.TrimStartShape | src/pages/DoctorProfile.tsx:98 | removing leading white space leaves a suffix of the input that does not start with white space, and every removed character is white space |
| Text.TrimEndShape | src/pages/DoctorProfile.tsx:98 | removing trailing white space leaves a prefix of the input that does not end with white space, and every removed character is white space |
| Text.TrimFixed | src/pages/DoctorProfile.tsx:98 | a string with no white space at either end is its own trim |
| Text.TrimDropsLeadingBlank | src/pages/DoctorProfile.tsx:98 | a leading blank does not change the trim |
| Text.Split | src/pages/DoctorProfile.tsx:97 | `split` on one character always yields at least one piece |
| Text.SplitPiecesLackSeparator | src/lib/supabase.ts:322 | no piece of a split contains the separator |
| Text.JoinSplit | src/pages/DoctorProfile.tsx:97 | joining the pieces of a split with the same separator gives back the original text |
| Text.LastPieceIsSuffix | src/lib/supabase.ts:322 | when the text holds the separator, `pop()` of its split is what follows the last separator |
| Text.SplitWithoutSeparator | src/lib/supabase.ts:322 | text without the separator splits into itself alone |
| Text.SplitAtSeparator | src/lib/supabase.ts:322 | splitting `a + sep + b` gives `a` followed by the pieces of `b`, when `a` has no separator |
| Text.SplitLeadingChar | src/pages/DoctorProfile.tsx:97 | a leading character other than the separator joins the first piece |
| Text.Substring | src/pages/PatientProfile.tsx:219 | `substring` never grows the text; in-range arguments select exactly that range; a reversed range is swapped; a negative start counts as 0 and an end past the text as its length |
| Text.Slice | src/pages/SignUp.tsx:234 | `slice` never grows the text; in-range arguments select exactly that range; a reversed range is empty; a negative start or end counts from the back, and a start before the beginning counts as 0 |
| Collections.Filter | src/pages/DoctorPatients.tsx:144 | the result has only kept elements taken from the input, and every kept element of the input is in it |
| Collections.FilterAppend | src/pages/DoctorPatients.tsx:144 | filtering distributes over concatenation, so it keeps relative order |
| Collections.Insert | src/pages/PatientVitals.tsx:100-102 | inserting into a newest-first list keeps it newest-first and adds exactly the one element |
| Collections.SortNewestFirst | src/pages/PatientVitals.tsx:100-102 | the sort's result is in non-increasing time order, is a permutation of its input, and is stable: the entries with any one timestamp appear in their original order |
| Collections.Reverse | src/pages/PatientVitals.tsx:106 | `reverse` keeps the length, and position `i` holds the input's element `n-1-i` |
| Supabase.OrPlaceholder | src/lib/supabase.ts:19-20 | an unset or empty setting is replaced by the placeholder; a non-empty one is kept |
| Supabase.ClientSettingsNeverEmpty | src/lib/supabase.ts:19-22 | the client is never created with an empty URL or key |
| Supabase.GetProfile | src/lib/supabase.ts:188-207 | a lookup by `user_id` succeeds exactly when one row has that id, and it returns that row |
| Supabase.NoRowsIffNoMatch | src/lib/supabase.ts:192 | the `user_id` filter is empty exactly when no row has that id |
| Supabase.CountOneIffUnique | src/lib/supabase.ts:192-193 | the filter holds exactly one row exactly when the id is unique |
| Supabase.UniqueAtHead | src/lib/supabase.ts:192-193 | when the first row matches, the id is unique exactly when no later row matches |
| Supabase.UniqueAfterHead | src/lib/supabase.ts:192-193 | when the first row does not match, uniqueness is decided by the remaining rows |
| Supabase.UpdateRows | src/lib/supabase.ts:210-219 | an update keyed by `user_id` keeps the row count and leaves rows of other users unchanged |
| Supabase.GetAfterUpdate | src/lib/supabase.ts:221-230 | after updating the single profile of a user, the lookup returns the patched row |
| Supabase.UpdatePreservesRows | src/lib/supabase.ts:210-219 | the user's rows after an update are exactly their rows before it, each patched |
| Supabase.GetAfterCreate | src/lib/supabase.ts:168-175 | after inserting a user's first profile, the lookup returns it |
| Supabase.DoctorPatients | src/lib/supabase.ts:252-254 | the doctor's list is exactly the rows for that doctor that are active and unrevoked |
| Supabase.PatientDoctors | src/lib/supabase.ts:279-281 | the patient's list is exactly the rows for that patient that are active and unrevoked |
| Supabase.GrantIsListed | src/lib/supabase.ts:291-297 | after a grant row for the pair is written, both list queries show the pair |
| Supabase.RevokeIsNotListed | src/lib/supabase.ts:307-313 | after a revoke, neither list shows the pair, and the rows of other pairs are unchanged |
| Supabase.AccessTable.Grant | src/lib/supabase.ts:288-302 | adds an active, unrevoked row for the pair, which both lists then show |
| Supabase.AccessTable.Revoke | src/lib/supabase.ts:305-318 | closes every row of the pair at the given instant, after which neither list shows the pair |
| Supabase.Extension | src/lib/supabase.ts:322 | the extension (`split('.').pop()`) contains no dot; a name without a dot is its own extension; a name with one ends with a dot and the extension |
| Supabase.PhotoPathKeepsExtension | src/lib/supabase.ts:322-324 | the photo path lies under `profiles/`, starts with the owner's id and a dash, and has the file's extension |
| Supabase.PhotoPath | src/lib/supabase.ts:322-324 | the storage path `profiles/<owner>-<token>.<extension>` |
| Pinata.IpfsUrl | src/lib/pinata.ts:49-51 | the gateway URL is the fixed gateway prefix followed by the content id |
| Pinata.IpfsUrlRoundTrip | src/lib/pinata.ts:49-51 | removing the prefix gives the content id back, so distinct ids give distinct URLs |
| Pinata.Upload | src/lib/pinata.ts:10-46 | without both credentials, nothing is sent and the call fails with the configuration error; otherwise one CID-version-0 pin request is sent and the service's hash or error is returned |
| Pinata.GetMetadata | src/lib/pinata.ts:54-76 | same guard; otherwise returns the first row's metadata, `null` for an empty list, or the service's error |
| Pinata.UnpinFile | src/lib/pinata.ts:79-97 | same guard; otherwise sends one unpin request and returns the service's reply body, or fails with its error |
| Pinata.GuardIgnoresService | src/lib/pinata.ts:11-13 | without credentials, no service answer changes the result of the three calls |
| AuthContext.RoleOf | src/contexts/AuthContext.tsx:105 | the role is the metadata role when it is non-empty, else `patient`; unknown roles are kept |
| AuthContext.ToUserData | src/contexts/AuthContext.tsx:102-108 | the user record copies id and address, defaults the email to `""` and derives the role |
| AuthContext.Refreshed | src/contexts/AuthContext.tsx:92-133 | refreshUser: a lookup that throws changes nothing; no user clears the user and both profiles; a user is set; a fetched profile fills its slot and clears the other; a failed fetch or unknown role keeps both slots; loading and wallet fields never change |
| AuthContext.AuthChanged | src/contexts/AuthContext.tsx:38-47 | an auth event with a session user refreshes; one without clears the user and both profiles; either way loading ends and the wallet fields are kept |
| AuthContext.InitiallyLoaded | src/contexts/AuthContext.tsx:50 | the initial load is a refresh followed by the end of loading |
| AuthContext.WalletConnected | src/contexts/AuthContext.tsx:71-89 | an accepted connection stores the address read (even none), marks the wallet connected and returns that address; a refusal or an exception returns none and changes nothing |
| AuthContext.WalletProbed | src/contexts/AuthContext.tsx:58-68 | the wallet probe stores a non-empty address and marks the wallet connected, and otherwise changes nothing |
| AuthContext.LoadingOnlyEnds | src/contexts/AuthContext.tsx:46-50 | over any run of events, loading is only ever switched off |
| AuthContext.IdentityEventsKeepWallet | src/contexts/AuthContext.tsx:92-133 | refreshes, auth events and profile stores never change the address or the connected flag |
| AuthContext.RefreshIdempotent | src/contexts/AuthContext.tsx:92-133 | refreshing twice against unchanged services gives the state of refreshing once |
| AuthContext.AtMostOneProfileKept | src/contexts/AuthContext.tsx:113-128 | without direct profile stores, at most one profile slot is ever filled |
| AuthContext.StaleProfileSurvivesFailedFetch | src/contexts/AuthContext.tsx:118-128 | a doctor signing in after a patient, while the doctor fetch fails, keeps the patient's profile |
| AuthContext.DoctorWithoutProfileFromStart | src/contexts/AuthContext.tsx:121-128 | from a fresh start, a doctor whose fetch fails is signed in with no profile and loading over |
| AuthContext.Session.constructor | src/contexts/AuthContext.tsx:29-34 | the session starts loading, with no user, no profiles, no address and no wallet |
| AuthContext.Session.RefreshUser | src/contexts/AuthContext.tsx:92-133 | the new state is `Refreshed` of the old one |
| AuthContext.Session.OnAuthStateChange | src/contexts/AuthContext.tsx:38-47 | the new state is `AuthChanged` of the old one |
| AuthContext.Session.InitialLoad | src/contexts/AuthContext.tsx:50 | the new state is `InitiallyLoaded` of the old one |
| AuthContext.Session.ConnectWallet | src/contexts/AuthContext.tsx:71-89 | the new state and the returned address are `WalletConnected` of the old state |
| AuthContext.Session.CheckWeb3 | src/contexts/AuthContext.tsx:58-68 | the new state is `WalletProbed` of the old one |
| AuthContext.Session.SetDoctorProfile | src/pages/DoctorProfile.tsx:122 | only the doctor profile slot changes |
| PatientVitals.RoleGuard | src/pages/PatientVitals.tsx:76-84 | the role guard of the three role-restricted pages: no redirect exactly for a user of the right role; `/signin` without a user; `/dashboard` for another role |
| PatientVitals.ValidVitals | src/pages/PatientVitals.tsx:36-53 | `vitalsSchema`: systolic 70–220, diastolic 40–120, blood sugar 30–600 and heart rate 40–220, every bound inclusive |
| PatientVitals.VitalsBoundsInclusive | src/pages/PatientVitals.tsx:36-53 | all eight bounds are inclusive, and one step past any bound is rejected |
| PatientVitals.DefaultVitals | src/pages/PatientVitals.tsx:68-73 | the defaults 120/80/100/70 pass the validator |
| PatientVitals.ToPoint | src/pages/PatientVitals.tsx:106-112 | a chart point carries its reading's instant and its systolic, diastolic, blood-sugar and heart-rate values |
| PatientVitals.Recent | src/pages/PatientVitals.tsx:376 | the history table shows exactly the first min(10, n) readings |
| PatientVitals.Chart | src/pages/PatientVitals.tsx:106-113 | the chart has min(10, n) points, the first ten readings in reverse order |
| PatientVitals.ChartIsChronological | src/pages/PatientVitals.tsx:100-113 | on the newest-first history, the chart runs oldest to newest and ends with the newest reading |
| PatientVitals.History | src/pages/PatientVitals.tsx:100-103 | the stored history is a newest-first permutation of what the chain returned |
| PatientVitals.VitalsPage.constructor | src/pages/PatientVitals.tsx:60-74 | the page starts idle and empty, on the `record` tab, with the default form |
| PatientVitals.VitalsPage.LoadVitalsData | src/pages/PatientVitals.tsx:92-121 | without an address nothing changes; a list becomes the history and its chart; a failed or non-list read keeps both; loading ends either way |
| PatientVitals.VitalsPage.OnSubmit | src/pages/PatientVitals.tsx:129-162 | without a user, then without an address, nothing is recorded; the form is valid on entry (only the schema resolver calls the handler); otherwise one report is sent with the form's values, so every reading sent is within the schema's bounds; a written report resets the form, reloads and switches to the `history` tab |
| PatientDocuments.NotesOptional | src/pages/PatientDocuments.tsx:57-62 | notes never decide validity, and a form without a file is invalid |
| PatientDocuments.ValidDocument | src/pages/PatientDocuments.tsx:57-62 | `documentSchema`: a title of at least 3 characters, a category of at least 2, optional notes and a required file |
| PatientDocuments.CategoriesAreSelectable | src/pages/PatientDocuments.tsx:47-55 | the menu has seven distinct categories, each passing the category rule |
| PatientDocuments.Library | src/pages/PatientDocuments.tsx:108-111 | the loaded list is a permutation of the chain's list, newest upload first |
| PatientDocuments.Record | src/pages/PatientDocuments.tsx:174-180 | the chain record names the content id, title, category and instant, with `''` for absent notes |
| PatientDocuments.RecordFollowsUpload | src/pages/PatientDocuments.tsx:165-169 | the upload yields a usable id exactly when credentials are set and the store returned a non-empty id |
| PatientDocuments.DocumentsPage.constructor | src/pages/PatientDocuments.tsx:67-82 | the page starts on the `files` tab with an empty form and no preview |
| PatientDocuments.DocumentsPage.LoadDocuments | src/pages/PatientDocuments.tsx:100-119 | without an address nothing changes; a list becomes the library; a failed read keeps the old list |
| PatientDocuments.DocumentsPage.PreviewFile | src/pages/PatientDocuments.tsx:134-137 | opens the preview on the document and changes nothing else |
| PatientDocuments.DocumentsPage.ClosePreview | src/pages/PatientDocuments.tsx:139-142 | closes and clears the preview and changes nothing else |
| PatientDocuments.DocumentsPage.OnSubmit | src/pages/PatientDocuments.tsx:144-191 | the form is valid on entry (only the schema resolver calls the handler), so every record written has a valid title and category; user, then address, then file are checked, and the first one missing stops everything; the chain record is written only for a non-empty content id, and names it with the second clock read (the upload metadata takes the first); after a written record the form is reset, the list reloads and the tab is `files` |
| DoctorPatients.Assemble | src/pages/DoctorPatients.tsx:118-140 | a patient entry has details exactly when the fetch read them; missing vitals or documents become empty lists |
| DoctorPatients.AssembleAll | src/pages/DoctorPatients.tsx:118-143 | one entry per shared address, in order |
| DoctorPatients.Loaded | src/pages/DoctorPatients.tsx:143-144 | the list holds exactly the assembled entries whose details were read |
| DoctorPatients.LoadedKeepsOrder | src/pages/DoctorPatients.tsx:117-144 | the list keeps the shared-patient order |
| DoctorPatients.FindPatient | src/pages/DoctorPatients.tsx:90 | `find` returns the first entry with the address, and nothing exactly when none has it |
| DoctorPatients.SelectedChart | src/pages/DoctorPatients.tsx:88-106 | a selected, listed patient with readings gets the chart of their readings in chain order; otherwise the previous chart stays |
| DoctorPatients.Toggled | src/pages/DoctorPatients.tsx:160-162 | selecting the current patient clears the selection; any other address becomes the selection |
| DoctorPatients.SelectTwiceKeepsChart | src/pages/DoctorPatients.tsx:160-162 | selecting a patient shows their chart, and selecting them again clears the selection but keeps that chart |
| DoctorPatients.DoctorPatientsPage.constructor | src/pages/DoctorPatients.tsx:67-70 | the page starts idle with no patients, no selection and no chart |
| DoctorPatients.DoctorPatientsPage.LoadPatients | src/pages/DoctorPatients.tsx:108-152 | without an address nothing changes; a shared list becomes `Loaded` and the chart is recomputed; a failed read keeps both; loading ends either way |
| DoctorPatients.DoctorPatientsPage.SelectPatient | src/pages/DoctorPatients.tsx:160-162 | the selection toggles, and the chart effect runs on the new selection |
| Dashboard.ScreenFor | src/pages/Dashboard.tsx:88-109 | the spinner while loading; once loaded, a patient or doctor without a profile is sent to their profile page and no user to `/signin`; the dashboard shows exactly otherwise |
| Dashboard.SpinnerWhileLoading | src/pages/Dashboard.tsx:97-105 | while loading, the screen is the spinner whatever the user state |
| Dashboard.FetchesExclusive | src/pages/Dashboard.tsx:52-86 | the patients and doctors fetches never both run, and once loading is over a page that fetches is one that shows the dashboard |
| Dashboard.WelcomeName | src/pages/Dashboard.tsx:120 | the welcome name is the patient's full name, else the doctor's, else the email |
| Dashboard.DashboardPage.constructor | src/pages/Dashboard.tsx:46-50 | the page starts on `overview` with empty lists and no fetch running |
| Dashboard.DashboardPage.FetchLists | src/pages/Dashboard.tsx:52-86 | each fetch runs only under its condition and stores its list on success; a failure keeps the old list; its loading flag ends false |
| Dashboard.DashboardPage.SelectTab | src/pages/Dashboard.tsx:239 | the tab becomes the chosen one; choosing the tab already active changes nothing and fetches nothing, since the effect depends on the tab (line 86); a different tab re-runs the fetch effect for it |
| PatientProfile.BloodGroupsAreSelectable | src/pages/PatientProfile.tsx:39 | the menu has eight distinct groups, each passing the blood-group rule |
| PatientProfile.ShortAddress | src/pages/PatientProfile.tsx:219 | the connected address as shown: `substring(0, 6)`, `...`, then `substring(length - 4)` |
| PatientProfile.ValidPatient | src/pages/PatientProfile.tsx:27-35 | `patientProfileSchema`: a name of at least 3 characters, a birth date and blood group present, a weight of at least 1, a 12-character Aadhaar number and a 10-character phone number |
| PatientProfile.ShortAddressShape | src/pages/PatientProfile.tsx:219 | an address of six or more characters shows as its first six, `...` and its last four (13 characters); one of five shows whole, `...`, then all but its first character; one of at most four shows whole on both sides |
| PatientProfile.PhotoUrl | src/pages/PatientProfile.tsx:115-131 | the saved photo URL is the new upload if a file was chosen, else the stored URL, else `''` |
| PatientProfile.ProfileSteps | src/pages/PatientProfile.tsx:96-162 | the calls a submission makes, in order, each step going on only when the previous one succeeded |
| PatientProfile.ProfileStepsContract | src/pages/PatientProfile.tsx:96-162 | without a user there are no calls; the wallet is tried only when not connected, and the sequence goes on only with an address; a chosen photo goes to the owner's path; an existing profile is updated by user id, otherwise one is created; registration follows a successful save, with height 170; the refresh follows a registration |
| PatientProfile.NoSaveWithoutWallet | src/pages/PatientProfile.tsx:106-113 | a refused connection, or one that finds no address, saves and registers nothing |
| PatientProfile.PatientProfilePage.constructor | src/pages/PatientProfile.tsx:44-46 | the page starts idle with no photo chosen |
| PatientProfile.PatientProfilePage.ChoosePhoto | src/pages/PatientProfile.tsx:76-88 | the chosen file becomes the photo |
| PatientProfile.PatientProfilePage.Submit | src/pages/PatientProfile.tsx:96-162 | the form is valid on entry (only the schema resolver calls the handler), so every registration carries a 12-character Aadhaar and a 10-character phone number; makes the calls of `ProfileSteps`; the session sees the connect attempt and the refresh exactly when those calls are made; loading ends |
| DoctorProfile.PhoneRulesDiffer | src/pages/DoctorProfile.tsx:24 | one more digit keeps a valid doctor form valid but makes a valid patient form invalid |
| DoctorProfile.ValidDoctor | src/pages/DoctorProfile.tsx:20-25 | `formSchema`: a name, qualification and specialised areas of at least 2 characters, and a phone of at least 10 |
| DoctorProfile.ParseAreas | src/pages/DoctorProfile.tsx:96-99 | every parsed area is non-empty, has no white space at either end and no comma |
| DoctorProfile.ParseJoinRoundTrip | src/pages/DoctorProfile.tsx:96-99 | parsing areas joined with `', '` gives the areas back, when each is clean |
| DoctorProfile.PrefilledAreasRoundTrip | src/pages/DoctorProfile.tsx:48-55 | submitting the form prefilled from a stored profile stores the same areas, and a stored profile whose fields meet the rules reopens as a form that passes validation |
| DoctorProfile.DoctorRedirect | src/pages/DoctorProfile.tsx:64-68 | once loading is over, a user who is not a doctor is sent to `/dashboard` |
| DoctorProfile.DoctorSteps | src/pages/DoctorProfile.tsx:84-144 | without a user there are no calls; the wallet is tried when not connected, but its answer is ignored; an existing profile is updated and otherwise one is created; both send the parsed areas, the user's address or `''`, and the chosen file's URL, else the stored URL, else `''` |
| DoctorProfile.AfterSaveAsWritten | src/pages/DoctorProfile.tsx:122 | as written, every submission ends in the failure message, keeps the old profile and does not navigate |
| DoctorProfile.AfterSave | src/pages/DoctorProfile.tsx:111-147 | a saved row becomes the session's profile and the page navigates; a refused save keeps the profile and shows the failure |
| DoctorProfile.SavedProfileLostAsWritten | src/pages/DoctorProfile.tsx:31 | a saved row never reaches the session as written, while the intended page adopts it |
| DoctorProfile.DoctorProfilePage.constructor | src/pages/DoctorProfile.tsx:32-34 | the page starts idle with no file chosen |
| DoctorProfile.DoctorProfilePage.ChooseFile | src/pages/DoctorProfile.tsx:70-82 | the chosen file becomes the selected file |
| DoctorProfile.DoctorProfilePage.Submit | src/pages/DoctorProfile.tsx:84-158 | the page as intended, with the session setter the context lacks (the corrected half of the Findings row; as written every save ends as `AfterSaveAsWritten` says, with no navigation and the old profile): the form is valid on entry, so every saved row has a phone of at least 10 characters; makes the calls of `DoctorSteps`; the session sees the connect attempt and, after the save, the profile `AfterSave` gives; the page navigates exactly on a successful save |
| SignUp.LookaheadMeans | src/pages/SignUp.tsx:30 | a lookahead succeeds exactly when a character of its class comes before the first line terminator |
| SignUp.OneLineLookahead | src/pages/SignUp.tsx:30 | on a one-line text, a lookahead is plain membership |
| SignUp.PasswordOk | src/pages/SignUp.tsx:27-32 | the password rule: at least 8 characters, and a lower-case letter, an upper-case letter and a digit each before the first line break |
| SignUp.PasswordRuleAccepts | src/pages/SignUp.tsx:27-32 | a password with a digit, an upper-case and a lower-case letter passes |
| SignUp.PasswordRuleStopsAtLineBreak | src/pages/SignUp.tsx:30 | a line break ahead of the required characters fails the rule |
| SignUp.PasswordRuleNeedsUpper | src/pages/SignUp.tsx:30 | a password without an upper-case letter fails, however long |
| SignUp.DefaultSignUp | src/pages/SignUp.tsx:53-58 | the form starts empty with the `patient` role, and no form with those defaults is valid |
| SignUp.ValidSignUp | src/pages/SignUp.tsx:25-40 | `signUpSchema`: a valid e-mail, a password passing the rule, the `patient` or `doctor` role, and a matching confirmation |
| SignUp.ConfirmationMustMatch | src/pages/SignUp.tsx:37-40 | a confirmation that differs from the password makes the form invalid |
| SignUp.MessageOr | src/pages/SignUp.tsx:116 | the message shown is the error's message when it has one, else the fallback, never empty |
| SignUp.SignUpSteps | src/pages/SignUp.tsx:96-120 | registration sends the form's email, password and role, plus the wallet address only when one was found; sign-in follows a registration; the refresh follows only a sign-in that returned a user, and exactly then no error is shown |
| SignUp.SignUpPage.constructor | src/pages/SignUp.tsx:47-49 | the page starts idle with no wallet address |
| SignUp.SignUpPage.CheckWallet | src/pages/SignUp.tsx:61-75 | a non-empty probed address is stored; an empty answer or an error changes nothing |
| SignUp.SignUpPage.ConnectWallet | src/pages/SignUp.tsx:77-94 | after an accepted connection, the address read is stored even when absent; a refusal or an error keeps the old one; the connecting flag ends false |
| SignUp.SignUpPage.Submit | src/pages/SignUp.tsx:96-120 | the form is valid on entry (only the schema resolver calls the handler), so no registration carries a password that breaks the rule or an unknown role; makes the calls of `SignUpSteps` with the page's address; the session is refreshed exactly when that call is made; loading ends |
| SignUp.ShortWallet | src/pages/SignUp.tsx:234 | the connected wallet as shown: `slice(0, 6)`, `...`, then `slice(-4)` |
| SignUp.ShortWalletAgrees | src/pages/SignUp.tsx:234 | the sign-up page's `slice` display equals the profile page's `substring` display for every address |
| ChangePassword.ValidChangeMeans | src/pages/ChangePassword.tsx:23-40 | a valid form has a new password of at least 8 characters that passes the sign-up rule — a lower-case letter, an upper-case letter and a digit before its first line break — equal to its confirmation and different from the current one |
| ChangePassword.ValidChange | src/pages/ChangePassword.tsx:23-40 | `passwordSchema`: a current password of at least 8 characters, a new one passing the sign-up rule, a matching confirmation, and a new password different from the current one |
| ChangePassword.SamePasswordRejected | src/pages/ChangePassword.tsx:37-40 | reusing the current password is always rejected |
| ChangePassword.ChangeSteps | src/pages/ChangePassword.tsx:58-78 | without a user nothing is sent and `User not authenticated` is shown; otherwise only the new password is sent; the refresh follows exactly a successful update |
| ChangePassword.CurrentPasswordUnused | src/pages/ChangePassword.tsx:67 | the calls do not depend on the current password, which is never checked against the provider |
| ChangePassword.ChangePasswordPage.constructor | src/pages/ChangePassword.tsx:47 | the page starts idle |
| ChangePassword.ChangePasswordPage.Submit | src/pages/ChangePassword.tsx:58-78 | the form is valid on entry (only the schema resolver calls the handler), so the password sent always follows the rule and differs from the current one; makes the calls of `ChangeSteps`; the session is refreshed exactly when that call is made; loading ends for a signed-in user |

## Left out

- The contract wrappers (src/lib/blockchain.ts) and the contract interface (src/contracts/ABI.ts).
  They are not part of this model. What a contract call returns, or whether it succeeded, is a parameter.
- The identity-service pass-throughs (`signUp`, `signIn`, `signOut`, `getCurrentUser`,
  `resetPassword`, `updatePassword`). Their behaviour belongs to the library. The model records
  the calls the pages make, and takes the answers as parameters.
- Supabase.AccessTable.Grant: modelled as appending an active, unrevoked row. The upsert names
  no conflict key, so whether an existing row for the pair is overwritten is the database's choice.
- Concurrency: the `Promise.all` over shared patients and the races among the auth-change callback,
  the initial refresh and the wallet probe. These are modelled as sequential steps.
- The reloads after a successful vitals or document submission are not awaited. The source switches
  the tab and ends its loading flag while the reload may still be running. The model completes the
  reload first.
- Floating point and dates. Readings are integers, weights are reals, instants are integers.
  The `MMM dd` date format is not modelled.
- E-mail validity (`z.string().email()`) is a parameter of `SignUp.ValidSignUp`.
- `Math.random`, `FileReader`, `URL.createObjectURL` and the storage's public URL are parameters.
  Toasts and navigation are left out, except where a contract states whether navigation happens.
- SignUp.PasswordOk: string lengths count Unicode code points, where the source counts UTF-16
  code units. A password with characters outside the Basic Multilingual Plane can differ at the
  8-character bound. The same holds for every length rule of the validators.
- Rendering, charts, layout, the landing page, the navigation bar and the route table.
- The thin auth pages. Their calls go straight to the identity service, whose answers are outside
  the model:
  - sign-in checks an e-mail and a password of at least 6 characters, then calls sign-in and then
    `refreshUser`;
  - e-mail verification checks only that both fields are non-empty, then makes the same two calls;
  - reset password checks only that the e-mail is non-empty, then makes one call.
- The form resets that prefill the profile forms from a stored profile. `DoctorProfile.FormFromProfile`
  models the doctor one, which is needed for the areas round trip. The patient one copies the
  fields unchanged.
- The joined patient and doctor records in the dashboard lists: a list entry is the access row only.

## Findings

| source | as written | input that shows it | evidently intended | confidence | as-written member | corrected member |
|---|---|---|---|---|---|---|
| src/pages/DoctorProfile.tsx:31 | The page takes `setDoctorProfile` from the session context, which neither declares nor provides it (src/contexts/AuthContext.tsx:14-23, 136-145). The call after a successful save (lines 122 and 139) therefore throws. The catch then shows the failure message, the session keeps its old profile and the page does not navigate. | A doctor with no stored profile submits a valid form and the database accepts the new row. | The saved row becomes the session's doctor profile, and the page goes to the dashboard. | high, not executed | DoctorProfile.AfterSaveAsWritten | DoctorProfile.AfterSave |
