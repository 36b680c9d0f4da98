# Release distribution portal: verified model of its state logic

The portal is a single-page music-distribution app. Artists sign in, submit
releases through a four-step wizard, and administrators approve or reject
pending submissions. Almost all of it is rendering. This project models the
three parts that hold state logic, and proves what they promise:

- **The release-submission wizard** (`distribution_form.dfy`, `track_list.dfy`).
  The wizard keeps a step counter (1..4), release metadata, an optional
  cover-art reference, an ordered track listing and a submission lifecycle
  (submitting, then finished). The handlers check nothing themselves: Continue
  adds one to the step and Back subtracts one. The bounds come only from which
  buttons are rendered or enabled. So each control's visibility or enabled
  state is the precondition of its handler, and `Wizard.Valid()` is the
  invariant those preconditions keep. It holds the step bounds, the floor of
  one track, distinct track ids, a genre from the genre list, and "submitting
  and finished never both hold". The track edits (append, filter by id, map by
  id) are pure functions in `TrackList`, with lemmas.
- **The admin submission table** (`admin_panel.dfy`). The only edit is a
  status update by id. Approve and Reject are rendered on PENDING rows only,
  so per row the states are PENDING -> DISTRIBUTED or PENDING -> REJECTED, and
  both targets are final.
- **The mock sign-in** (`auth_view.dfy`). The user record is derived from the
  email and the stage name. The role is ADMIN exactly when the email contains
  `admin`, case-sensitively. Default names fill in an empty stage name. A
  loading flag brackets the derivation.

`types.dfy` holds the shared records: `User`, `UserRole`, `ReleaseStatus` and
the genre list.

Timers are explicit events. The wizard's submission timer is
`Wizard.ResolveSubmit`, and the sign-in timer is `AuthForm.Resolve`. The
clock readings used as track ids become a counter, `Wizard.nextId`. The random
user id becomes a parameter of `MockUser` and `AuthForm.Resolve`.

What the handlers leave to the UI:

- `handleNext`, `handleBack` and `handleSubmit` check nothing: the step can be
  moved past 4 or below 1, or a submission started outside step 4, by any caller.
  In the UI, Continue is rendered only below step 4 and Submit only on step 4
  and disabled while submitting. Back is rendered on every step but is disabled
  on step 1 (and transparent there). The model states these enabled states as
  preconditions of the handlers, not as error results.
- Back stays enabled while a submission is pending, so `isSubmitting` can hold
  on steps 1..3.
- `removeTrack` ignores the request when one track is listed; it reports
  nothing.
- Track ids are clock readings and are not guaranteed distinct (see Findings).
  The model draws them from a counter.
- Nothing checks the genre except the selector, which offers only the genre
  list, so `SetMetadata` requires a listed genre.

## Model

| member | source | states |
|---|---|---|
| `TrackList.WithField` | components/DistributionForm.tsx:44 | the spread `{ ...t, [field]: value }`: the named field becomes the value, the id and every other field are unchanged |
| `TrackList.AddTrack` | components/DistributionForm.tsx:33-35 | the list grows by one; the old tracks are a prefix, unchanged and in order; the new last track has the given id and all four text fields empty |
| `TrackList.WithoutId` | components/DistributionForm.tsx:39 | the filter keeps exactly the tracks whose id differs (membership both ways), never grows the list, and returns the list unchanged when the id is absent |
| `TrackList.RemoveTrack` | components/DistributionForm.tsx:37-41 | with one track (or none) the list is unchanged; with more than one, exactly the tracks whose id differs remain |
| `TrackList.UpdateTrack` | components/DistributionForm.tsx:43-45 | length and every id are kept; tracks with another id are unchanged; a track with the id has the named field set and every other field kept |
| `TrackList.WithoutIdAt` | components/DistributionForm.tsx:39 | with distinct ids, removing the id found at position k yields exactly the list without position k, in the original order |
| `TrackList.WithoutIdKeepsUnique` | components/DistributionForm.tsx:39 | filtering keeps the ids distinct |
| `TrackList.RemoveKeepsFloor` | components/DistributionForm.tsx:37-41 | with distinct ids and at least one track: at least one track remains, the length drops by exactly one when the id is listed and more than one track is listed, and an absent id changes nothing |
| `TrackList.RemoveWithSharedIdEmpties` | components/DistributionForm.tsx:34-39 | without distinct ids the floor fails: if every track has the removed id, the filter leaves nothing, however many tracks were listed |
| `TrackList.AddKeepsUnique` | components/DistributionForm.tsx:33-35 | appending a track whose id is above every listed id keeps ids distinct, and all ids are below the advanced supply |
| `TrackList.UpdateTrackAt` | components/DistributionForm.tsx:43-45 | with distinct ids, an edit by id replaces exactly the track at that id's position; every other position is unchanged |
| `TrackList.UpdateKeepsIds` | components/DistributionForm.tsx:44 | an edit keeps ids distinct and below the id supply |
| `DistributionForm.WithMetadata` | components/DistributionForm.tsx:128-157 | the spread `{ ...metadata, field: value }`: the named field becomes the value and the other three are unchanged |
| `DistributionForm.ReviewLines` | components/DistributionForm.tsx:276-281 | one review row per track, numbered from 1 by position; a non-empty song title is shown as is, an empty one as "Untitled" |
| `DistributionForm.ReviewOf` | components/DistributionForm.tsx:254-285 | the title and genre are the metadata's; the user line is the session user's stage name, or empty without a user; the image source is the cover art, or empty without one; an empty release date shows "Not set"; the track count equals the number of tracks; the rows are `ReviewLines` numbered from 1, so an empty song title shows "Untitled" |
| `DistributionForm.RetitleShowsInReview` | components/DistributionForm.tsx:226 | with distinct ids, retitling a track shows the new title on that track's review row; every other row and the track count are unchanged |
| `DistributionForm.Wizard.constructor` | components/DistributionForm.tsx:13-28 | initial state: step 1, not submitting, not finished, empty title/date/UPC, the first listed genre, no cover art, exactly one blank track |
| `DistributionForm.Wizard.HandleNext` | components/DistributionForm.tsx:300-306 | offered only below step 4 and before finishing; adds one to the step; changes nothing else (its frame is the step alone); keeps the invariant, so the step stays in 1..4 |
| `DistributionForm.Wizard.HandleBack` | components/DistributionForm.tsx:290-298 | disabled on step 1; subtracts one from the step; changes nothing else, so metadata, cover art and tracks survive navigation |
| `DistributionForm.Wizard.SetMetadata` | components/DistributionForm.tsx:125-160 | step-1 inputs: one metadata field replaced; a genre comes only from the list, so the genre stays listed |
| `DistributionForm.Wizard.SelectCoverArt` | components/DistributionForm.tsx:170-173 | step 2: the cover art becomes the picked reference, replacing any earlier one |
| `DistributionForm.Wizard.AddTrack` | components/DistributionForm.tsx:33-35 | step 3: appends a blank track with a fresh id and advances the id supply, so ids stay distinct |
| `DistributionForm.Wizard.RemoveTrack` | components/DistributionForm.tsx:37-41 | step 3: the list becomes the filter result when more than one track is listed; it loses exactly one track when the id is listed; at least one track always remains |
| `DistributionForm.Wizard.UpdateTrack` | components/DistributionForm.tsx:222-235 | step 3, song-title and ISRC inputs only: the list becomes the map-by-id result; the invariant is kept |
| `DistributionForm.Wizard.HandleSubmit` | components/DistributionForm.tsx:47-54 | offered on step 4 only, disabled while submitting: sets submitting and schedules exactly one resolution |
| `DistributionForm.Wizard.ResolveSubmit` | components/DistributionForm.tsx:50-53 | fires only while a resolution is pending: submitting ends and finished is set; nothing is left pending, so it happens once per submission; after it no editing, navigation or submit handler can be called |
| `DistributionForm.AddTwoRemoveFirst` | components/DistributionForm.tsx:30-54 | a walk through the wizard: two tracks added to the initial one and the initial one removed leaves exactly the two added tracks; submitting then finishes the wizard |
| `AdminPanel.InitialSubmissions` | components/AdminPanel.tsx:7-12 | four rows with distinct ids 101..104; rows 101..103 are PENDING and row 104 is DISTRIBUTED |
| `AdminPanel.StatusUpdated` | components/AdminPanel.tsx:14-16 | length and order kept; every field but the status kept; a row with the id gets the new status, other rows keep theirs; an unknown id leaves the table unchanged |
| `AdminPanel.UpdateIdempotent` | components/AdminPanel.tsx:15 | applying the same update twice equals applying it once |
| `AdminPanel.Offered` | components/AdminPanel.tsx:82-103 | a row offers actions exactly when it is PENDING; a PENDING row offers both DISTRIBUTED (Approve) and REJECTED (Reject), and no other target is ever offered |
| `AdminPanel.Click` | components/AdminPanel.tsx:82-98 | a row button's `updateStatus(sub.id, …)`: the length and every row's identity are kept; on a PENDING row, Approve or Reject gives that row the target status; any other click (a non-PENDING row, another target, a row that does not exist) leaves the table unchanged |
| `AdminPanel.Replay` | components/AdminPanel.tsx:82-98 | any sequence of row-button clicks keeps the length and every row's identity, and a table with no PENDING row is never changed |
| `AdminPanel.ClickMovesOneRow` | components/AdminPanel.tsx:82-98 | with distinct ids, Approve or Reject on a row is only possible on a PENDING row and sets that row alone to the target |
| `AdminPanel.ClickKeepsTerminal` | components/AdminPanel.tsx:82-103 | with distinct ids, one click keeps ids distinct, keeps every row's other fields, and leaves DISTRIBUTED and REJECTED rows unchanged |
| `AdminPanel.TerminalThroughClicks` | components/AdminPanel.tsx:82-103 | starting from distinct ids, after any sequence of clicks every row keeps its identity, and a DISTRIBUTED or REJECTED row is unchanged: both states are final |
| `AdminPanel.Panel.constructor` | components/AdminPanel.tsx:7-12 | the panel starts with the initial table |
| `AdminPanel.Panel.UpdateStatus` | components/AdminPanel.tsx:14-16 | the table becomes the update-by-id result, and ids stay distinct |
| `AdminPanel.Panel.Approve` | components/AdminPanel.tsx:84-90 | on a PENDING row: that row alone becomes DISTRIBUTED |
| `AdminPanel.Panel.Reject` | components/AdminPanel.tsx:91-97 | on a PENDING row: that row alone becomes REJECTED |
| `AuthView.Includes` | components/AuthView.tsx:24 | `email.includes('admin')`: true only when the pattern fits and occurs at some position; true whenever the text starts with the pattern |
| `AuthView.IncludesIffOccurs` | components/AuthView.tsx:24 | the substring test holds exactly when the pattern occurs at some position, character for character |
| `AuthView.MockUser` | components/AuthView.tsx:24-31 | the role is ADMIN exactly when "admin" occurs in the email, ARTIST otherwise; the email is copied; the name is the stage name or "New Artist"; the stage name is kept, or else "Admin Console" for admins and "Rising Star" for artists |
| `AuthView.AuthForm.constructor` | components/AuthView.tsx:12-16 | the form starts on the sign-in tab with empty inputs, not loading |
| `AuthView.AuthForm.SetMode` | components/AuthView.tsx:51-62 | the two tab buttons set the mode, and nothing else changes it |
| `AuthView.AuthForm.SetEmail` | components/AuthView.tsx:88 | the email input sets the email |
| `AuthView.AuthForm.SetPassword` | components/AuthView.tsx:99 | the password input sets the password |
| `AuthView.AuthForm.SetStageName` | components/AuthView.tsx:66-75 | the stage-name input exists only on the sign-up tab |
| `AuthView.AuthForm.HandleSubmit` | components/AuthView.tsx:18-20 | allowed only when not loading and the required inputs are filled in; sets loading and captures the email and stage name for the timer |
| `AuthView.AuthForm.Resolve` | components/AuthView.tsx:23-34 | the login callback gets the user derived from the captured inputs, exactly once per submission; then loading ends |

## Left out

- Rendering, CSS classes, icons and the progress stepper are presentation only.
- The delays of the two timers (2000 ms and 1500 ms) are not modelled. Each timer is a separate resolve event.
- The clock-based track ids and the random user id are foreign, nondeterministic calls. A counter replaces the first and a parameter the second.
- The "Go to Dashboard" navigation on the confirmation screen (`window.location.hash`) is routing. The model only shows that the confirmation screen leaves no wizard handler reachable.
- The cover-art picker always sets one fixed URL. The model takes any reference, since only "cover art is now some reference" matters.
- The review's user line reads the session user's stage name. The user is a parameter of `ReviewOf`. The confirmation message shows only the release title and is not modelled.
- The per-track audio file input is not wired to any handler, so the audio URL and credits are never set through the UI. `TrackList.UpdateTrack` covers all four fields, and `Wizard.UpdateTrack` accepts only the two fields that have inputs.
- The browser's email-format check on the email input (`type="email"`) is not modelled. Only the `required` attributes are, as preconditions of `AuthForm.HandleSubmit`.
- Session persistence and routing in App.tsx, the sidebar's role check, the dashboard's static data and the icon component are not part of this model. They hold no state logic of the modelled components.

## Findings

| source | as written | input that shows it | evidently intended | confidence | as-written member | corrected member |
|---|---|---|---|---|---|---|
| components/DistributionForm.tsx:34-39 | track ids are clock readings in milliseconds, and `removeTrack` filters every track with the given id after checking only that more than one track is listed | two Add Track clicks within one clock tick (e.g. under a coarsened clock) give two tracks one id; delete the initial track, then delete either of the two: both go and the listing becomes `[]` | the listing never drops below one track, which the `length > 1` guard is there for | low, not executed | `TrackList.RemoveWithSharedIdEmpties` | `TrackList.RemoveKeepsFloor` (ids drawn from the counter in `DistributionForm.Wizard.AddTrack`) |
