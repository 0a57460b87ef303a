# DashTalent admin core, modelled in Dafny

DashTalent is an administrative dashboard for a catalogue of talents (models,
actors, presenters). Each talent has a name, gender, height, experience,
specialty, description, photos, tags, a rating and an active flag. This
project models the parts of the dashboard that hold its logic:

- **The talent form** (`components/TalentForm.tsx`). Modelled in
  `talent_validation.dfy` and `talent_form.dfy`:
  - the rules for each field: the name is at least three UTF-16 code units after
    trimming, the height pattern, a rating from 0 to 5, at least one photo;
  - the error map that blocks a submission;
  - the parsing and joining of comma-separated tags;
  - the form state and its event handlers (change, blur, add and remove
    photos, submit and its outcome).
- **The server action that creates a talent**
  (`app/admin/talents/add/actions.ts`). Modelled in `add_talent_action.dfy`:
  - every photo is uploaded, without overwriting, under a key built from the
    time, a random suffix and the file's extension;
  - the first failed upload aborts the action;
  - the public addresses are gathered and the new row is inserted with
    `active` set to true.
- **The notification bell** (`components/HeaderNotifications.tsx`). Modelled
  in `header_notifications.dfy`:
  - the initial load marks everything read;
  - realtime inserts are prepended, capped at ten, and count as unread;
  - opening the bell marks all as read;
  - the compact "5m / 3h / 2d" age labels.
- **The live activity feed** (`app/admin/ActivityFeed.tsx`). Modelled in
  `activity_feed.dfy`: the newest four registrations and the "Hace N min/h/d"
  labels.
- **The talent card** (`components/TalentCard.tsx`). Modelled in
  `talent_card.dfy`: a photo carousel that wraps around, the placeholder
  photo, and the tag preview with its "+N" overflow.
- **The talent catalogue** (`app/admin/talents/TalentCatalog.tsx`). Modelled
  in `talent_catalog.dfy`: the gender filter, the Spanish count line, the
  choice between the grid and the empty state, and the "show all" link.
- **The toast queue** (`lib/toast.tsx`). Modelled in `toast.dfy`.

Supporting modules:

- `text.dfy`: JavaScript string operations on `seq<char>`. `trim` uses the
  ECMAScript whitespace set. Also `split` and `join`, and decimal numerals
  with their parser.
- `lists.dfy`: `filter` and removal by index.
- `newest_first.dfy`: `[x, ...prev].slice(0, cap)` and what a run of inserts
  produces.
- `time_ago.dfy`: the minute, hour and day buckets of the two age labels.
- `wrappers.dfy`: `Option`, with `GetOr` for `??` and `||` fallbacks.

Values the browser or the server supply appear as parameters:

- `Date.now()` is a sequence of clock readings.
- The random key suffixes are a sequence of strings.
- Storage and database failures are a list of optional error messages.
- `getPublicUrl` is a function from keys to addresses.
- `Number` is a function from strings to `JsNumber`.

Elapsed times are given in milliseconds instead of dates.

## Model

| member | source | states |
|---|---|---|
| TalentValidation.FormData.Set | components/TalentForm.tsx:217-223 | writing a field changes that field to the new value and leaves every other field as it was |
| Text.Utf16Length | components/TalentForm.tsx:72 | `.length` counts UTF-16 code units: at least one and at most two per character |
| TalentValidation.NameRule | components/TalentForm.tsx:71-75 | surrounding whitespace never matters: a padded name is rejected exactly when its trimmed core is shorter than three UTF-16 code units |
| TalentValidation.TwoEmojiNameAccepted | components/TalentForm.tsx:72 | a name of two emoji has length four in UTF-16 code units, so it passes |
| TalentValidation.PaddedShortNameRejected | components/TalentForm.tsx:72 | blanks around a two-letter name do not make it long enough |
| TalentValidation.HeightPieces | components/TalentForm.tsx:76-80 | soundness of the height scanner: every accepted text splits into digits, an optional fraction ("." and at least one digit), blanks and a unit of m, cm or none, in any letter case |
| TalentValidation.HeightPiecesAccepted | components/TalentForm.tsx:76-80 | completeness of the height scanner: every text of that shape is accepted |
| TalentValidation.ScanRejects | components/TalentForm.tsx:76-80 | a non-empty trimmed text that does not match the pattern gets the height error |
| TalentValidation.PaddedAccepts | components/TalentForm.tsx:77 | a well-formed height surrounded by whitespace is accepted, because the value is trimmed before matching |
| TalentValidation.MetresAccepted | components/TalentForm.tsx:78 | "1.75m", the first example in the error message, is accepted |
| TalentValidation.CentimetresAccepted | components/TalentForm.tsx:78 | "175cm", the second example in the error message, is accepted |
| TalentValidation.SpacedUpperUnitAccepted | components/TalentForm.tsx:77 | blanks before the unit and an upper-case unit are accepted (the pattern has the `i` flag) |
| TalentValidation.HeightPaddingIgnored | components/TalentForm.tsx:77 | " 1.78 m " is accepted |
| TalentValidation.BlankHeightRejected | components/TalentForm.tsx:77 | a height made only of blanks is non-empty, so it is checked, and it is rejected |
| TalentValidation.DanglingPointRejected | components/TalentForm.tsx:77 | "1." is rejected: a point must be followed by digits |
| TalentValidation.MissingIntegerRejected | components/TalentForm.tsx:77 | ".5" is rejected: the integer part is required |
| TalentValidation.UnknownUnitRejected | components/TalentForm.tsx:77 | "175mm" is rejected: only m and cm are units |
| TalentValidation.RatingRule | components/TalentForm.tsx:88-92 | a rating passes exactly when it is empty or reads as a finite number from 0 to 5, both ends included; NaN and the infinities fail |
| TalentValidation.ValidateField | components/TalentForm.tsx:67-96 | the message is empty exactly when the field's rule passes; fields without a rule always pass |
| TalentValidation.ValidatePhotos | components/TalentForm.tsx:81-87 | the photo message is empty exactly when new files plus kept photos are at least one |
| TalentValidation.ValidateFieldAgrees | components/TalentForm.tsx:110-114 | the per-field message used on blur is the same one the submit check records for that field |
| TalentValidation.NoErrorsIffAllPass | components/TalentForm.tsx:109-119 | the error map is empty exactly when name, height, rating and photos all pass; each field is a key exactly when its rule fails, and every stored message is non-empty |
| TalentValidation.CheckField | components/TalentForm.tsx:112-113 | one field's check yields its message when its rule fails, and "" otherwise |
| TalentValidation.CollectErrors | components/TalentForm.tsx:110-117 | the loop over the form's keys, followed by the photo check, builds exactly the error map of the failing checks |
| TalentValidation.ParseTags | components/TalentForm.tsx:131 | each parsed tag is non-empty, trimmed and free of commas, and the tags keep the order of the trimmed comma-separated pieces |
| TalentValidation.ParseTagsKeepsEveryTag | components/TalentForm.tsx:131 | no tag is lost: every non-empty trimmed piece is kept as often as it occurs, and only empty pieces are dropped |
| TalentValidation.PaddedTagsSplit | components/TalentForm.tsx:131 | splitting a whitespace-padded ", "-joined list on commas and trimming every piece gives back the list |
| TalentValidation.TagsRoundTrip | components/TalentForm.tsx:55 | parsing tags that were joined with ", " gives back the same tags, for any list of trimmed, non-empty, comma-free tags |
| TalentForm.InitialForm | components/TalentForm.tsx:48-57 | a new talent starts from the blank form with "Dama"; an existing talent's text fields are copied, an empty gender falls back to "Dama", its tags are shown joined by ", " and a missing rating becomes "" |
| TalentForm.Payload | components/TalentForm.tsx:127-132 | the payload carries every text field and the rating as typed, the selected files and the kept photo addresses as they are, and the parsed tag list, whose entries are all well-formed |
| TalentForm.UnchangedEditResubmits | components/TalentForm.tsx:48-132 | editing a talent and submitting it untouched sends back the talent's own fields, tags and photos, no new files, and its rating as text |
| TalentForm.FormState.constructor | components/TalentForm.tsx:48-64 | the form starts from the initial data and the talent's photos, with no files, no errors, nothing touched, no server error and the photo error hidden |
| TalentForm.FormState.Change | components/TalentForm.tsx:217-223 | typing sets exactly that field; name, height and rating are checked again only when already touched; nothing else changes |
| TalentForm.FormState.Blur | components/TalentForm.tsx:98-102 | leaving a field marks it touched and records its current message, even an empty one |
| TalentForm.FormState.AddFiles | components/TalentForm.tsx:409-417 | selected files are appended after the ones already chosen; the photo rule is checked again only when photos were touched |
| TalentForm.FormState.RemoveFile | components/TalentForm.tsx:443-449 | removing a new file drops exactly the file at that position and keeps the order of the rest |
| TalentForm.FormState.RemoveExistingPhoto | components/TalentForm.tsx:469-476 | removing a kept photo drops exactly that one; the photo rule is checked again against the count before the removal |
| TalentForm.FormState.Submit | components/TalentForm.tsx:104-176 | an invalid form records the error map, marks every input touched, sends nothing and changes no data; a valid form sends the payload of the form as it stood and then settles; loading always ends false and photos never become touched |
| TalentForm.FormState.Settle | components/TalentForm.tsx:134-175 | success shows the mode's toast and, when adding, resets the form; a failure reports the server's message or a fallback; an exception reports its message with the generic toast |
| AddTalentAction.Pop | app/admin/talents/add/actions.ts:33 | `pop` yields the last element, and nothing only for an empty list |
| AddTalentAction.ExtensionNeverDefaults | app/admin/talents/add/actions.ts:33 | the "jpg" fallback is never taken; the extension never contains a point, and it is the whole name when the name has no point |
| AddTalentAction.ExtensionAfterLastPoint | app/admin/talents/add/actions.ts:33 | the extension is exactly the text after the last point |
| AddTalentAction.KeyKeepsExtension | app/admin/talents/add/actions.ts:33-34 | a storage key ends in the file's own extension |
| AddTalentAction.Keys | app/admin/talents/add/actions.ts:32-34 | one key per file, in order, each built from that file's clock reading, random suffix and extension |
| AddTalentAction.StoreObject | app/admin/talents/add/actions.ts:36-38 | a non-overwriting upload succeeds exactly when there is no fault and the key is new; it adds that key and keeps every other object; a rejection reports the fault or the duplicate-key message |
| AddTalentAction.Bucket.Upload | app/admin/talents/add/actions.ts:36-43 | the bucket changes exactly as the store function says, and reports its error |
| AddTalentAction.Step | app/admin/talents/add/actions.ts:32-50 | one loop turn keeps every stored object and adds only the file's key; on success the file is under its key and a non-empty address is gathered; a failure freezes everything afterwards |
| AddTalentAction.FailureStops | app/admin/talents/add/actions.ts:40-43 | after the first failed upload no later file changes anything |
| AddTalentAction.FailureKeepsEarlierUploads | app/admin/talents/add/actions.ts:31-43 | when file i is the first refused, the run ends in that state and every earlier file stays in the bucket under its key, with no rollback |
| AddTalentAction.UploadsKeepObjects | app/admin/talents/add/actions.ts:38 | objects that were in the bucket before keep their contents whatever happens |
| AddTalentAction.UploadsStoreEveryPhoto | app/admin/talents/add/actions.ts:31-51 | when no upload fails, every file is stored under its own key |
| AddTalentAction.UploadsOnlyUnderKeys | app/admin/talents/add/actions.ts:34-38 | the bucket gains objects only under the keys of this submission |
| AddTalentAction.UrlsFollowUploads | app/admin/talents/add/actions.ts:46-49 | at most one address per file, none empty; when nothing fails and every address is non-empty, they are the files' addresses in order |
| AddTalentAction.UrlsSkipEmpty | app/admin/talents/add/actions.ts:46-49 | when no upload fails, the stored addresses are the files' public addresses in upload order with the empty ones dropped |
| AddTalentAction.TalentTable.Insert | app/admin/talents/add/actions.ts:55-72 | a failed insert leaves the table as it was and reports its message; otherwise the row is appended |
| AddTalentAction.UploadPhotos | app/admin/talents/add/actions.ts:28-51 | the loop leaves the bucket and gathers the addresses, or stops with the error, exactly as the upload specification says |
| AddTalentAction.AddTalent | app/admin/talents/add/actions.ts:18-76 | a failed upload returns its message and inserts nothing, with earlier uploads left in place; a failed insert returns its message; otherwise one active row holding the submitted fields, tags and gathered addresses is appended and success is returned |
| HeaderNotifications.MarkAllRead | components/HeaderNotifications.tsx:86 | every notification is kept in place and marked read |
| HeaderNotifications.LoadedAsRead | components/HeaderNotifications.tsx:32-35 | fetched registrations become notifications marked read, in the order fetched |
| HeaderNotifications.InsertAddsAtMostOneUnread | components/HeaderNotifications.tsx:52 | prepending and capping adds at most one unread notification |
| HeaderNotifications.FormatTimeAgo | components/HeaderNotifications.tsx:72-80 | the label ends in m below an hour, h below a day and d otherwise |
| HeaderNotifications.LabelShowsCount | components/HeaderNotifications.tsx:72-80 | the label is the floored count in the bucket's unit followed by that unit's letter: the numeral reads back as the count |
| HeaderNotifications.LabelsDistinguishBuckets | components/HeaderNotifications.tsx:72-80 | two ages get the same label exactly when they fall in the same unit and count |
| HeaderNotifications.Bell.constructor | components/HeaderNotifications.tsx:17-19 | the bell starts closed, empty and with no unread count |
| HeaderNotifications.Bell.LoadInitial | components/HeaderNotifications.tsx:25-36 | when rows come back they replace the list as read notifications; otherwise the list is kept; the count of unread never falls below the unread notifications shown |
| HeaderNotifications.Bell.OnInsert | components/HeaderNotifications.tsx:50-54 | the new registration goes first, unread; the list is capped at ten and the badge count goes up by one |
| HeaderNotifications.Bell.HandleOpen | components/HeaderNotifications.tsx:82-88 | opening clears the count and marks all read; closing changes nothing else |
| HeaderNotifications.Bell.Close | components/HeaderNotifications.tsx:59-63 | clicking outside or on the close button closes the bell and changes nothing else |
| TimeAgo.Bucket | components/HeaderNotifications.tsx:75-79 | the age is in minutes below an hour, in hours below a day and in days otherwise, and its count is the floor of the elapsed time in that unit |
| TimeAgo.MinutesThenHours | components/HeaderNotifications.tsx:77 | flooring to minutes and then to hours equals flooring straight to hours |
| TimeAgo.HoursThenDays | components/HeaderNotifications.tsx:79 | flooring to hours and then to days equals flooring straight to days |
| NewestFirst.PrependCapped | components/HeaderNotifications.tsx:52 | the new element comes first, followed by the previous ones in order, up to the cap |
| NewestFirst.AfterEventsIsNewestPrefix | app/admin/ActivityFeed.tsx:47 | after a run of inserts the list holds the newest events, most recent first, followed by the initial list, cut at the cap |
| ActivityFeed.FormatTimeAgo | app/admin/ActivityFeed.tsx:23-33 | every label starts with "Hace " |
| ActivityFeed.LabelNamesUnit | app/admin/ActivityFeed.tsx:28-32 | the label ends in " min" below an hour, " h" below a day and " d" otherwise |
| ActivityFeed.LabelShowsCount | app/admin/ActivityFeed.tsx:23-33 | the label ends in a blank and the unit's word, and the numeral after "Hace " reads back as the floored count in that unit |
| ActivityFeed.LabelsDistinguishBuckets | app/admin/ActivityFeed.tsx:23-33 | two ages get the same label exactly when they fall in the same unit and count |
| ActivityFeed.StatusLabel | app/admin/ActivityFeed.tsx:79 | "Activo" exactly for active talents, "Inactivo" exactly for the others |
| ActivityFeed.Feed.constructor | app/admin/ActivityFeed.tsx:20 | the feed starts with the server-rendered talents |
| ActivityFeed.Feed.OnInsert | app/admin/ActivityFeed.tsx:45-48 | the new talent goes first, followed by the previous ones in order, and at most four are kept |
| ActivityFeed.FeedAfterEvents | app/admin/ActivityFeed.tsx:47 | after any run of inserts the feed holds at most four entries, the latest insert first |
| TalentCard.DisplayPhotos | components/TalentCard.tsx:27 | the card's photos are never empty: the talent's own photos, or the placeholder alone |
| TalentCard.NextIndex | components/TalentCard.tsx:29-31 | the next photo is the following one, wrapping from the last back to the first |
| TalentCard.PrevIndex | components/TalentCard.tsx:33-35 | the previous photo is the one before, wrapping from the first to the last |
| TalentCard.PrevAfterNext | components/TalentCard.tsx:29-35 | "previous" undoes "next" |
| TalentCard.NextAfterPrev | components/TalentCard.tsx:29-35 | "next" undoes "previous" |
| TalentCard.AdvanceIsModular | components/TalentCard.tsx:29-31 | pressing "next" k times lands on (index + k) mod the photo count |
| TalentCard.FullCycle | components/TalentCard.tsx:29-31 | pressing "next" once per photo returns to the starting photo |
| TalentCard.PhotoCarousel.constructor | components/TalentCard.tsx:26-27 | the carousel starts at the first of the card's photos |
| TalentCard.PhotoCarousel.CurrentPhoto | components/TalentCard.tsx:46 | the photo shown is always one of the card's photos |
| TalentCard.PhotoCarousel.NextPhoto | components/TalentCard.tsx:29-31 | the index moves to the next photo and stays in range |
| TalentCard.PhotoCarousel.PrevPhoto | components/TalentCard.tsx:33-35 | the index moves to the previous photo and stays in range |
| TalentCard.PhotoCarousel.SelectPhoto | components/TalentCard.tsx:73 | a dot selects its own photo |
| TalentCard.TagPreview | components/TalentCard.tsx:127 | at most the first three tags are shown, in order, and all of them when there are three or fewer |
| TalentCard.TagOverflow | components/TalentCard.tsx:135-137 | the "+N" badge appears exactly when there are more than three tags |
| TalentCard.TagsAccounted | components/TalentCard.tsx:127-137 | shown tags plus the "+N" count account for every tag, and N is positive whenever the badge appears |
| TalentCatalog.AllShowsEverything | app/admin/talents/TalentCatalog.tsx:30-31 | "Todos" shows every talent in the given order |
| TalentCatalog.GenderFilterExact | app/admin/talents/TalentCatalog.tsx:30-33 | a gender filter keeps exactly the talents of that gender, with their multiplicities, in their original order |
| TalentCatalog.FilterIsIdempotent | app/admin/talents/TalentCatalog.tsx:30-33 | filtering the filtered list again changes nothing |
| TalentCatalog.CountLabel | app/admin/talents/TalentCatalog.tsx:44 | the line starts with the count, followed by " talento registrado" for one and " talentos registrados" for any other count |
| TalentCatalog.CountLabelReadsBack | app/admin/talents/TalentCatalog.tsx:44 | the number at the head of the line reads back as the number of talents shown |
| TalentCatalog.GridIffSomeMatch | app/admin/talents/TalentCatalog.tsx:86-103 | the grid of cards is shown exactly when some talent matches the filter: under "Todos" exactly when there are talents, under a gender exactly when some talent has it |
| TalentCatalog.ShowAllOnlyWhenFiltered | app/admin/talents/TalentCatalog.tsx:104-121 | the "Ver todos" link is offered only under a gender filter that matches nothing, only inside the empty state (never with the grid), "Todos" would then show something whenever there are talents, and "Todos" never offers it |
| Toast.WithoutIdRemovesExactly | lib/toast.tsx:36-38 | removal drops exactly the toasts with that id and keeps the others, in order and with their multiplicities |
| Toast.WithoutAbsentId | lib/toast.tsx:37 | removing an id no toast carries changes nothing |
| Toast.ToastQueue.constructor | lib/toast.tsx:34 | the queue starts empty |
| Toast.ToastQueue.AddToast | lib/toast.tsx:40-44 | the toast is appended at the end, with "info" when no type is given |
| Toast.ToastQueue.RemoveToast | lib/toast.tsx:36-38 | the queue loses exactly the toasts with that id |
| Toast.ToastQueue.Success | lib/toast.tsx:46 | appends a success toast |
| Toast.ToastQueue.Error | lib/toast.tsx:47 | appends an error toast |
| Toast.ToastQueue.Info | lib/toast.tsx:48 | appends an info toast |
| Text.TrimOfPadded | components/TalentForm.tsx:72 | `trim` removes exactly the surrounding whitespace of a trimmed core |
| Text.SplitAtLast | app/admin/talents/add/actions.ts:33 | splitting at a separator whose last occurrence precedes a separator-free tail ends with that tail |
| Text.ParseNatToString | app/admin/talents/TalentCatalog.tsx:44 | a written count reads back as the same number |

## Left out

- Rendering, styling, animations and icons: they are not modelled. Of the
  markup, only the conditions that decide what appears are kept: the badge,
  the navigation arrows, the tag row, the photo error, the grid and the
  "show all" link.
- `Number`: JavaScript number parsing is a parameter (`toNumber`). The
  rating rule is stated for whatever value it returns. Floating-point
  arithmetic is left out; a finite value is an exact fraction.
- Dates: both age labels take the elapsed milliseconds. Parsing `created_at`
  and reading the clock are not modelled.
- `Date.now()`, `Math.random()` and the toast id: these become inputs. The
  model does not capture that the keys are likely to be unique. A
  collision shows up as the storage service's "The resource already exists"
  rejection.
- Timers: the toast's five-second dismissal is the explicit `RemoveToast`
  call, and the 800 ms redirect after an edit is not modelled.
- Supabase plumbing is not modelled:
  - realtime channel subscription and removal;
  - the click-outside DOM listener (only its effect, `Close`);
  - `revalidatePath` and `console.error`;
  - the choice between the service-role client and the session client.
- The choice of `onSubmit` implementation: `Submit` takes the outcome of the
  server call as a parameter (`Resolved` result or `Threw` message).
  `AddTalent` computes such a result for the add mode. The edit action's
  source is not part of this model.
- Update, delete and status toggle operations, the derived `foto` field and
  the dashboard statistics: they are not part of the modelled files.
- The `rating` field: `addTalent` does not store it. The form sends it, but
  the insert at app/admin/talents/add/actions.ts:55-67 has no rating
  column, and the model follows that code.
- The "jpg" default extension: the code's fallback can never fire, because
  `split` always returns at least one piece. A name without a point gets the
  whole name as its extension. The model follows the code, and
  `ExtensionNeverDefaults` states it.
- The photo error message: it is never displayed. `touched.files` is never
  set, because no blur handler names `files` and the submit handler marks
  only the form's text fields. The constructor starts with the error hidden,
  and every method ensures photos never become touched. The photo rule
  still blocks a submission.
- Form inputs whose change handler only copies the value: the gender select,
  specialty, experience, description and tags. They are covered by `Change`
  with a field that is never re-checked.
- HeaderNotifications.Bell.LoadInitial: requires at most five rows, which
  the query's `limit(5)` guarantees. The order of the rows is taken as the
  database returns it.
- HeaderNotifications.Bell: the invariant states only that the unread count
  is at least the number of unread notifications shown. Notifications
  pushed past the cap of ten still count, as in the source.
- TalentForm.FormState.Settle: the edit-mode redirect is not modelled, and
  the error toast's id is a parameter.
- AddTalentAction.AddTalent: the public address is whatever `publicUrl`
  returns. An empty address is skipped, as the source does.
