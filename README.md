# Release back office: a verified model

This project models the release back office of a music distribution dashboard. Artists (role
`user`) create a release in a five-step wizard:

1. choose a format;
2. fill in the basic information and cover;
3. add tracks with their audio files;
4. give the release history;
5. review and submit.

Staff (roles `admin` and `operator`) list releases, review them and read dashboard totals.

The model has two halves.

**The client.**
- The wizard's store (`ReleaseStore.Store`, a class whose methods update its fields).
- The five wizard steps and the track form, as classes or methods over the store.
- The role-filtered sidebar, the route guard, and the placeholder page heading, as pure functions.

**The REST back end.**
- The release handlers (`ReleaseController`).
- The dashboard statistics (`ReportController`).
- The registration and login decisions (`AuthController`).

Each handler is one atomic step over a `Tables.Database` object. Its tables are sequences of
rows, with `Option` for nullable columns and integer cents for amounts.

**Shared pieces.**
- The two multer configurations for uploaded files (`UploadMiddleware`, `UploadUtils`).
- The parts of Node's `path` module they rely on (`NodePath`).
- `TrackUpload`, which connects the two halves. It proves that track fields sent by step 3 reach
  the tracks table unchanged.

Remote calls made by the client are represented by a parameter: the server's reply, or whether
the call succeeded. Under each outcome the model states the new state.

**Observations on the code.** The model follows the code as written, including where that
defeats the evident intent. These consequences were stated and proved:
- **Step 3's database write.** Step 3 posts the track number as text, and the server stores that
  text through a signed 32-bit INT column. Under strict SQL mode the round trip is exact for
  every integer in that column's range, and a number outside it makes the insert fail with 500
  (`TrackUpload.TrackNumberReadBack`, `TrackUpload.StoredTrack`).
- **Step 4's server update.** Step 4 sends its values to the same `updateRelease` handler as step
  2, which ignores them: the release row does not change
  (`ReleaseController.HistoryOnlyBodyChangesNothing`).
- **Step 4's second check box.** The second check box shows `!brand_new`, not the value it edits.
  From the initial values, unchecking "brand new" leaves both values false while the second box
  shows as checked (`Step4Specifics.UncheckBrandNewFromStart`).
- **Hidden pages.** The sidebar hides several pages from role user, but the router mounts the
  guard without a role list. A signed-in user can therefore still open every page by its URL
  (`ProtectedRoute.HiddenLinksStillReachable`).
- **Status changes.** `updateReleaseStatus` has no ownership check: any caller may set any
  release back to `pending`. The status is stored as NULL when none is sent.
- **The listing's track count.** `getReleases` counts the tracks of its LEFT JOIN.
- **Revenue totals.** For role user, the revenue total is a JOIN with releases. It equals the sum
  of the revenues of releases the user owns only because release ids are unique
  (`ReportController.JoinedRevenueIsOwned`).
- **File names.** A cover named `.png` passes the image filter, yet `extname` gives it no
  extension, so it is stored under its bare suffix
  (`UploadMiddleware.DotfileCoverStoredWithoutExtension`). The name filters are case-sensitive.
- **Step 2 after Back.** Step 2's form takes the store's basic information as its defaults, so
  once a submit with a cover has succeeded, the form's values still carry the stored
  `cover_file` (and `cover_preview`), and the submit loop appends that file under `cover_file`.
  The PATCH route accepts a file only under `cover`, so after Back on step 3 every further submit
  of step 2 fails and the wizard stays on step 2
  (`Step2BasicInfo.ResubmitAfterCoverRejected`, `Step2BasicInfo.SentAcceptedIff`).
- **Step 4's hidden distributor.** The previous-distributor field is hidden once the release is
  marked brand new, but a value typed before stays in the form. It is sent and stored, and the
  review then shows "New Release" together with a previous distributor
  (`Step5Review.StaleDistributorReviewed`).
- **Store behaviour the wizard does not guard.** Going back to step 1 and pressing Next creates
  a second draft but keeps the tracks already in the store. Switching the format to single does
  not drop tracks beyond the first.

## Model

| member | source | states |
|---|---|---|
| ReleaseStore.TypeName | src/hooks/useReleaseStore.ts:19 | the type name sent to the server is never empty, and is "single" exactly for a single |
| ReleaseStore.MergeBasicInfoLaws | src/hooks/useReleaseStore.ts:73 | the spread merge of a partial basic-info object: the empty patch is the identity; a patch applied twice equals once; two patches in a row equal their combination; each of the eleven keys is overwritten with the patch's value when present and keeps the old value when absent |
| ReleaseStore.MergeSpecificsLaws | src/hooks/useReleaseStore.ts:74 | the same laws for the specifics merge: the empty patch is the identity; a patch applied twice equals once; two patches in a row equal their combination; each of the three keys is overwritten when present and kept when absent |
| ReleaseStore.DropIndexSpec | src/hooks/useReleaseStore.ts:81 | filtering out position `index` removes exactly that element when it is in range, and leaves the list unchanged otherwise, including for negative indexes |
| ReleaseStore.Assigned | src/hooks/useReleaseStore.ts:76-80 | `newTracks[index] = track`: in range only that element is replaced; at the length the track is appended; a negative index leaves the list as it was |
| ReleaseStore.Store.constructor | src/hooks/useReleaseStore.ts:51-68 | the store starts at step 1, with no draft, no type, empty basic fields, brand new and not previously released, and no tracks |
| ReleaseStore.Store.SetStep | src/hooks/useReleaseStore.ts:70 | only the step changes |
| ReleaseStore.Store.SetReleaseId | src/hooks/useReleaseStore.ts:71 | only the draft id changes |
| ReleaseStore.Store.SetType | src/hooks/useReleaseStore.ts:72 | only the type changes |
| ReleaseStore.Store.SetBasicInfo | src/hooks/useReleaseStore.ts:73 | the basic info becomes the merge of the old value with the patch; nothing else changes |
| ReleaseStore.Store.SetSpecifics | src/hooks/useReleaseStore.ts:74 | the specifics become the merge of the old value with the patch; nothing else changes |
| ReleaseStore.Store.AddTrack | src/hooks/useReleaseStore.ts:75 | the track is appended: the list grows by one, ends with the track, and keeps the old tracks as its prefix |
| ReleaseStore.Store.UpdateTrack | src/hooks/useReleaseStore.ts:76-80 | the copied list with the assignment at `index`, as `Assigned` describes; nothing else changes |
| ReleaseStore.Store.RemoveTrack | src/hooks/useReleaseStore.ts:81 | the tracks lose exactly position `index` |
| ReleaseStore.Store.Reset | src/hooks/useReleaseStore.ts:82-100 | the whole store returns to the initial state |
| Step1Format.HandleSelect | src/components/features/release/Step1Format.tsx:12-14 | choosing a format stores it and changes nothing else |
| Step1Format.NextDisabled | src/components/features/release/Step1Format.tsx:82 | the Next button is disabled exactly while no format is chosen; `HandleNext` posts exactly when it is enabled |
| Step1Format.HandleNext | src/components/features/release/Step1Format.tsx:16-29 | a request is made exactly when the Next button is enabled; with no type, nothing is sent and nothing changes; otherwise the type's name is posted; a reply stores the draft id and moves to step 2; a failed post leaves the store as it was |
| Step2BasicInfo.TruthyFieldsMembers | src/components/features/release/Step2BasicInfo.tsx:44-46 | a text part is sent exactly for each text entry that is defined and non-empty, a file part exactly for each entry holding a file, and nothing else is sent |
| Step2BasicInfo.BuildFormData | src/components/features/release/Step2BasicInfo.tsx:43-49 | the loop builds the parts of the truthy entries in order, followed by the cover when one was chosen |
| Step2BasicInfo.SingleFileAccepted | dist-server/backend/routes/releaseRoutes.js:9 | `upload.single(name)` lets a body through exactly when every file part is under `name` and there is at most one |
| Step2BasicInfo.SentAcceptedIff | dist-server/backend/routes/releaseRoutes.js:9 | the PATCH route's `upload.single('cover')` accepts step 2's body exactly when the form was mounted without a stored cover file |
| Step2BasicInfo.ResubmitAfterCoverRejected | src/components/features/release/Step2BasicInfo.tsx:25-27 | once a submit with a cover has succeeded, a step 2 mounted on the resulting store sends a body the route rejects, whatever is entered |
| Step2BasicInfo.SubmittedPatchReplaces | src/components/features/release/Step2BasicInfo.tsx:56-60 | because the submitted patch carries every key, success replaces the stored basic info with the form, the current cover and its preview |
| Step2BasicInfo.RequiredFieldsSent | src/components/features/release/Step2BasicInfo.tsx:85-131 | a form that passes the required checks sends title, label and release date; an empty version is not sent |
| Step2BasicInfo.BasicInfoStep.constructor | src/components/features/release/Step2BasicInfo.tsx:25-29 | the form's defaults are the store's basic information at mount; the cover and preview start from the store |
| Step2BasicInfo.BasicInfoStep.HandleFileSelect | src/components/features/release/Step2BasicInfo.tsx:31-32 | choosing a file sets the cover at once and keeps the preview until the file is read |
| Step2BasicInfo.BasicInfoStep.PreviewLoaded | src/components/features/release/Step2BasicInfo.tsx:34-36 | the preview becomes the loaded data URL |
| Step2BasicInfo.BasicInfoStep.Submit | src/components/features/release/Step2BasicInfo.tsx:40-63 | something is sent exactly when the required fields are filled: the truthy entries of the form and of its stored defaults, plus the cover; when the route accepts that body and the handler succeeds, the form, cover and preview are merged into the store and the step becomes 3; otherwise nothing changes |
| Step2BasicInfo.BasicInfoStep.Back | src/components/features/release/Step2BasicInfo.tsx:138 | only the step changes, to 1 |
| TrackForm.Form.constructor | src/components/features/release/TrackForm.tsx:21-22 | the form opens with no audio file and no clip |
| TrackForm.Form.SelectAudio | src/components/features/release/TrackForm.tsx:87 | the audio file becomes the selection, which is cleared by an empty selection; the clip is kept |
| TrackForm.Form.SelectClip | src/components/features/release/TrackForm.tsx:96 | the clip becomes the selection; the audio file is kept |
| TrackForm.Form.Submit | src/components/features/release/TrackForm.tsx:24-30 | a track is saved exactly when title and genre are filled and both files are chosen; it carries the form's number and both files |
| Step3Tracks.MaxTracks | src/components/features/release/Step3Tracks.tsx:52 | a single holds one track and anything else holds fifteen |
| Step3Tracks.CanAddMoreBelowMax | src/components/features/release/Step3Tracks.tsx:52 | there is room exactly while the count is below the format's maximum; a single has room only while it has no track |
| Step3Tracks.NextTrackNumber | src/components/features/release/Step3Tracks.tsx:70 | the offered number is one more than the number of tracks, so at least 1 |
| Step3Tracks.DefinedFieldsMembers | src/components/features/release/Step3Tracks.tsx:17-21 | a text part is sent exactly for each defined entry (an empty string is still sent) |
| Step3Tracks.BuildTrackFormData | src/components/features/release/Step3Tracks.tsx:16-23 | the loop builds the defined text parts in order, followed by the attached audio file and clip |
| Step3Tracks.FilesOnlyUnderAudioKeys | src/components/features/release/Step3Tracks.tsx:17-23 | a file part is sent only under `audio_file` or `audio_clip`, and only the track's own file |
| Step3Tracks.TracksStep.constructor | src/components/features/release/Step3Tracks.tsx:10 | the form starts closed |
| Step3Tracks.TracksStep.ShowAddButton | src/components/features/release/Step3Tracks.tsx:58 | the Add Track button is shown exactly while the form is closed and there is room; `ClickAddTrack` opens the form only through it |
| Step3Tracks.TracksStep.NextDisabled | src/components/features/release/Step3Tracks.tsx:112 | the Next button is disabled while there is no track or the form is open; `HandleNext` reaches its alert only when the button is disabled |
| Step3Tracks.TracksStep.ClickAddTrack | src/components/features/release/Step3Tracks.tsx:58-59 | the form opens only through the shown button, so only while there is room |
| Step3Tracks.TracksStep.Cancel | src/components/features/release/Step3Tracks.tsx:69 | the form closes |
| Step3Tracks.TracksStep.HandleAddTrack | src/components/features/release/Step3Tracks.tsx:13-37 | the track is posted with its defined fields and files; success appends it and closes the form; failure keeps both; the count never exceeds the format's maximum |
| Step3Tracks.TracksStep.HandleDeleteTrack | src/components/features/release/Step3Tracks.tsx:39-42 | deleting removes position `index` from the store and keeps the room invariant |
| Step3Tracks.TracksStep.HandleNext | src/components/features/release/Step3Tracks.tsx:44-50 | with no track the user is alerted and nothing changes, which the enabled Next button never reaches; otherwise the wizard moves to step 4 |
| Step3Tracks.TracksStep.Back | src/components/features/release/Step3Tracks.tsx:109 | only the step changes, to 2 |
| Step4Specifics.SpecificsForm.constructor | src/components/features/release/Step4Specifics.tsx:18-20 | the form starts from the store's specifics |
| Step4Specifics.SpecificsForm.BrandNewShown | src/components/features/release/Step4Specifics.tsx:48 | the brand-new box shows the value it edits |
| Step4Specifics.SpecificsForm.PreviouslyReleasedShown | src/components/features/release/Step4Specifics.tsx:62 | the second box is shown checked exactly when the release is not brand new |
| Step4Specifics.SpecificsForm.DistributorFieldShown | src/components/features/release/Step4Specifics.tsx:71 | the distributor field is rendered exactly when the release is not brand new |
| Step4Specifics.SpecificsForm.ClickBrandNew | src/components/features/release/Step4Specifics.tsx:48-52 | the value flips; checking it clears previously-released; the distributor is kept; the two values never both become true |
| Step4Specifics.SpecificsForm.ClickPreviouslyReleased | src/components/features/release/Step4Specifics.tsx:62-66 | the value becomes the opposite of what the box shows; checking it clears brand new; afterwards the two values are never both true |
| Step4Specifics.SpecificsForm.EditDistribution | src/components/features/release/Step4Specifics.tsx:77 | only the distributor changes |
| Step4Specifics.SpecificsForm.Submit | src/components/features/release/Step4Specifics.tsx:24-29 | the form's values are sent; success stores them and moves to step 5; failure changes nothing |
| Step4Specifics.SpecificsForm.Back | src/components/features/release/Step4Specifics.tsx:86 | only the step changes, to 3 |
| Step4Specifics.UncheckBrandNewFromStart | src/components/features/release/Step4Specifics.tsx:48-66 | from the initial values, unchecking brand new makes both values false while the second box shows checked |
| Step5Review.HandleSubmit | src/components/features/release/Step5Review.tsx:13-24 | the request asks for status pending for the stored id; success resets the store and goes to /releases; failure changes nothing |
| Step5Review.HistoryLine | src/components/features/release/Step5Review.tsx:71 | "New Release" exactly for a brand-new release, otherwise "Previously Released" |
| Step5Review.DistributorListed | src/components/features/release/Step5Review.tsx:73 | the previous distributor is listed exactly when it is a non-empty string |
| Step5Review.SpecificsRows | src/components/features/release/Step5Review.tsx:68-79 | the panel shows the status row, then the previous distributor exactly when it is listed |
| Step5Review.StaleDistributorReviewed | src/components/features/release/Step4Specifics.tsx:48-80 | after unchecking brand new, typing a distributor and checking brand new again, step 4 stores the distributor and the review lists it under a new release |
| Sidebar.CurrentRole | src/components/layout/Sidebar.tsx:19 | without a user the sidebar acts for role user; otherwise for the user's role |
| Sidebar.FilterItems | src/components/layout/Sidebar.tsx:84-86 | the filter keeps as many items as the role is allowed to see |
| Sidebar.FilterItemsMembers | src/components/layout/Sidebar.tsx:84-86 | a link is kept exactly when it is in the list and the role is allowed to see it |
| Sidebar.FilterItemsConcat | src/components/layout/Sidebar.tsx:84-86 | filtering keeps order: the filter of a concatenation is the concatenation of the filters |
| Sidebar.RenderNavItems | src/components/layout/Sidebar.tsx:88-90 | nothing is rendered exactly when no item is left; otherwise the filtered items are rendered |
| Sidebar.Sections | src/components/layout/Sidebar.tsx:128-149 | the Menu and Data Laporan sections are always rendered, each with its filtered items; a third section, Settings, is rendered only for role admin |
| Sidebar.MenuFor | src/components/layout/Sidebar.tsx:21-40 | role user sees the whole menu; the other roles see it without New Release |
| Sidebar.ReportsFor | src/components/layout/Sidebar.tsx:42-67 | role admin sees all four report links; the other roles see them without Upload Laporan |
| Sidebar.SettingsFor | src/components/layout/Sidebar.tsx:69-82 | only role admin sees the settings links |
| Sidebar.VisibleAsFilters | src/components/layout/Sidebar.tsx:120-149 | the sidebar shows the filtered menu, then the filtered reports, then the filtered settings for role admin only |
| Sidebar.VisibleIffAllowed | src/components/layout/Sidebar.tsx:21-149 | a link is shown to a role exactly when its table entry lists that role |
| Sidebar.VisibleItemsFor | src/components/layout/Sidebar.tsx:84-149 | the links each role sees, section by section and in order |
| Sidebar.VisibleItemsUser | src/components/layout/Sidebar.tsx:21-67 | role user sees Dashboard, New Release, All Release, Statistik, Revenue, Payment |
| Sidebar.VisibleItemsOperator | src/components/layout/Sidebar.tsx:21-67 | role operator sees Dashboard, All Release, Statistik, Revenue, Payment |
| Sidebar.VisibleItemsAdmin | src/components/layout/Sidebar.tsx:21-82 | role admin sees every link except New Release |
| Sidebar.NewReleaseOnlyForUser | src/components/layout/Sidebar.tsx:28-33 | New Release is offered exactly to role user |
| Sidebar.AdminOnlyLinks | src/components/layout/Sidebar.tsx:61-82 | Upload Laporan, Aggregators and Users are offered exactly to role admin |
| Sidebar.SignedOutSeesUserLinks | src/components/layout/Sidebar.tsx:19 | a signed-out visitor gets the links of role user |
| ProtectedRoute.Guard | src/components/layout/ProtectedRoute.tsx:11-20 | redirect to login exactly when unauthenticated or without a user; redirect to the dashboard exactly when a given role list excludes the role; otherwise render the page |
| ProtectedRoute.HiddenLinksStillReachable | src/App.tsx:19-33 | the Users and Upload Laporan links are hidden from role user, yet the guard as mounted renders those pages for that user |
| Placeholder.Split | src/pages/Placeholder.tsx:9 | splitting gives at least one piece, and no piece contains the separator |
| Placeholder.JoinSplit | src/pages/Placeholder.tsx:9 | joining the pieces with the separator gives back the string |
| Placeholder.NonEmpty | src/pages/Placeholder.tsx:9 | `filter(Boolean)` keeps exactly the non-empty pieces |
| Placeholder.Segments | src/pages/Placeholder.tsx:9 | every segment is non-empty and has no slash |
| Placeholder.SegmentsSpellPath | src/pages/Placeholder.tsx:9 | the segments together spell the path without its slashes |
| Placeholder.Capitalize | src/pages/Placeholder.tsx:9 | same length; first letter upper-cased and the rest kept |
| Placeholder.CapitalizeAll | src/pages/Placeholder.tsx:9 | every segment capitalized, in order |
| Placeholder.JoinLength | src/pages/Placeholder.tsx:9 | a join holds every part plus one separator between each two neighbours |
| Placeholder.DisplayTitle | src/pages/Placeholder.tsx:9 | a non-empty title is shown as given; otherwise the capitalized segments joined with " > " |
| Placeholder.DerivedTitleLength | src/pages/Placeholder.tsx:9 | the derived heading's length is the segments' lengths plus three per separator |
| Placeholder.CapitalizedLengthSum | src/pages/Placeholder.tsx:9 | capitalizing keeps the total length |
| Placeholder.DisplayTitleExamples | src/pages/Placeholder.tsx:9 | "/" gives an empty heading; "//ab/" gives "Ab"; a given title wins over the path |
| UploadMiddleware.Destination | backend/middleware/upload.ts:6-23 | covers go to uploads/covers/, both audio fields to uploads/audio/, any other field to uploads/others/ (each an if-and-only-if) |
| UploadMiddleware.UniqueSuffix | backend/middleware/upload.ts:25 | the suffix is at least three characters and holds a '-' |
| UploadMiddleware.UniqueSuffixReadBack | backend/middleware/upload.ts:25 | the suffix has one '-', right after the clock reading's digits; every other character is a digit; the two digit runs read back as the clock reading and the random draw |
| UploadMiddleware.UniqueSuffixInjective | backend/middleware/upload.ts:25 | equal suffixes come from equal clock readings and equal draws |
| UploadMiddleware.Filename | backend/middleware/upload.ts:24-27 | the stored name is the suffix followed by exactly the original's extension, with no '/' added |
| UploadMiddleware.WithinSizeLimit | backend/middleware/upload.ts:46 | a file is within the limit exactly when it has at most 50 MiB |
| UploadMiddleware.UploadDecision | backend/middleware/upload.ts:43-47 | a file is stored exactly when the filter accepts its name and it is within the size limit; the filter's rejection comes first, then multer's "File too large" |
| UploadMiddleware.FileFilter | backend/middleware/upload.ts:30-41 | a file is accepted exactly when a cover has an image suffix and an audio field has an audio suffix; other fields always pass; with the two rejection messages |
| UploadMiddleware.UpperCaseCoverRejected | backend/middleware/upload.ts:32-37 | the suffix test is case-sensitive: .PNG and .WAV are refused, .png is accepted |
| UploadMiddleware.AcceptedKeepsExtension | backend/middleware/upload.ts:26-37 | an accepted name with something before its extension is stored with that extension |
| UploadMiddleware.DotfileCoverStoredWithoutExtension | backend/middleware/upload.ts:26-32 | a cover named ".png" is accepted but stored under the bare suffix |
| UploadUtils.UploadDir | backend/utils/upload.ts:6 | the upload directory lies under the working directory and ends in /api/uploads |
| UploadUtils.DirectoriesDistinct | backend/utils/upload.ts:6-9 | the four directories are distinct, and covers, audio and reports lie inside the upload directory |
| UploadUtils.Destination | backend/utils/upload.ts:18-28 | covers, audio and report files each go to their own directory; other fields go to the upload directory itself |
| UploadUtils.Filename | backend/utils/upload.ts:29-32 | the stored name is the field name, a '-', and the other configuration's name |
| UploadUtils.FileFilter | backend/utils/upload.ts:35-46 | the rejection messages of this configuration |
| UploadUtils.SameDecisionsAsMiddleware | backend/utils/upload.ts:35-46 | this filter accepts exactly the files the middleware's filter accepts |
| NodePath.BaseName | backend/middleware/upload.ts:26 | the last path component is a suffix of the path and has no '/' |
| NodePath.ExtName | backend/middleware/upload.ts:26 | the extension is empty, or starts with the name's last '.' and runs to its end, with no '/' or other '.' |
| NodePath.ExtNameEmptyIff | backend/middleware/upload.ts:26 | the extension is empty exactly when the last component has no '.' after its first character, or is ".." |
| NodePath.ExtNameOfSuffix | backend/middleware/upload.ts:26 | a name ending in `.ext` after another character of the same component has extension `.ext` |
| NodePath.Join | backend/utils/upload.ts:6-9 | the joined path starts with the directory and ends with the name |
| Strings.NatToDecimal | src/components/features/release/Step3Tracks.tsx:19 | the decimal rendering is non-empty, all digits, with no leading zero |
| Strings.IntToDecimal | src/components/features/release/Step3Tracks.tsx:19 | `toString()` of a number starts with a digit exactly when the number is not negative |
| Strings.DecimalRoundTrip | backend/controllers/releaseController.ts:112 | reading a rendered number back gives the number |
| Sorting.Insert | backend/controllers/releaseController.ts:142 | inserting adds exactly the element: the result is one longer and its multiset gains that element |
| Sorting.InsertSorted | backend/controllers/releaseController.ts:142 | inserting into a list sorted by the key keeps it sorted |
| Sorting.SortBy | backend/controllers/releaseController.ts:142 | `ORDER BY`: the result is sorted by the key and is a permutation of the input |
| Tables.UpdateWhereId | backend/controllers/releaseController.ts:70-73 | `UPDATE ... WHERE id = ?` changes every row with that id and no other |
| ReleaseController.FindOwned | backend/controllers/releaseController.ts:43 | the ownership lookup finds a row with that id and owner exactly when one exists |
| ReleaseController.CreateRelease | backend/controllers/releaseController.ts:7-30 | a missing or empty type gives 400 and nothing changes; otherwise one pending "Untitled Release" owned by the caller is appended under the next id, which the reply carries |
| ReleaseController.ApplyPush | backend/controllers/releaseController.ts:57-65 | pushing one truthy field's assignment applies that column's update |
| ReleaseController.BuiltAssignmentsPatch | backend/controllers/releaseController.ts:54-73 | running the SET list the handler builds is the declarative patch |
| ReleaseController.UpdateRelease | backend/controllers/releaseController.ts:33-81 | a non-owner gets 404 and nothing changes; otherwise every row with the id takes the truthy fields and any uploaded cover; the reply carries the new or old cover path |
| ReleaseController.HistoryOnlyBodyChangesNothing | backend/controllers/releaseController.ts:37-40 | a body holding only the release-history fields writes nothing |
| ReleaseController.NumericText | backend/controllers/releaseController.ts:110-112 | a number is stored only within the INT column's range; a text of digits is stored as its value when it fits; a missing, empty, lone '-' or lone '+' value has no number |
| ReleaseController.PlusSignIgnored | backend/controllers/releaseController.ts:110-112 | a leading '+' before the digits gives the same number as the digits alone |
| ReleaseController.AddTrack | backend/controllers/releaseController.ts:84-120 | a missing file gives 400 before the ownership check; a non-owner gets 404; otherwise the insert succeeds exactly when the title is present and the number parses; only then is one track row appended, with the audio paths and `explicit === 'true'` |
| ReleaseController.FindVisible | backend/controllers/releaseController.ts:129-137 | a visible row with the id is found exactly when one exists |
| ReleaseController.TracksOf | backend/controllers/releaseController.ts:142 | exactly the tracks of the release |
| ReleaseController.GetRelease | backend/controllers/releaseController.ts:123-149 | 404 exactly when the caller may see no release with the id; otherwise such a release, with exactly its tracks sorted by track number |
| ReleaseController.GetReleaseTracks | backend/controllers/releaseController.ts:142 | a track is returned exactly when it belongs to the release |
| ReleaseController.UserSeesOnlyOwnRelease | backend/controllers/releaseController.ts:132-135 | role user only ever gets its own release |
| ReleaseController.ListingMembers | backend/controllers/releaseController.ts:158-179 | a release is listed exactly when it matches the role and status filters, with its owner's name and its track count |
| ReleaseController.NewestFirst | backend/controllers/releaseController.ts:181 | the sort key of `ORDER BY r.created_at DESC`, as ordered by `NewestFirstKeyOrder` |
| ReleaseController.NewestFirstKeyOrder | backend/controllers/releaseController.ts:181 | a smaller key means a later or equal creation time, so an ascending sort on it lists the newest first |
| ReleaseController.GetReleases | backend/controllers/releaseController.ts:152-190 | the listing is newest first and a permutation of the matching releases |
| ReleaseController.UpdateReleaseStatus | backend/controllers/releaseController.ts:193-232 | role user asking for anything but pending gets 403 and nothing changes; otherwise every row with the id takes the status, and the aggregator only when a non-zero one was sent |
| TrackUpload.BodyField | backend/controllers/releaseController.ts:88-90 | multer's body field: absent when no text part has the name, the string when one has, the array of values when several have |
| TrackUpload.TextField | backend/controllers/releaseController.ts:88-90 | the text a handler reads holds a text part sent under its name; it is absent exactly when no such part was sent |
| TrackUpload.BodyFieldOfSingle | backend/controllers/releaseController.ts:88-90 | for a name sent at most once, the text read is multer's value |
| TrackUpload.TrackBodySendsNamesOnce | src/components/features/release/Step3Tracks.tsx:17-23 | step 3's body sends each name at most once, so every field `addTrack` reads is a plain string or absent |
| TrackUpload.TextFieldOfDefined | src/components/features/release/Step3Tracks.tsx:17-21 | the server reads exactly the defined entries the client appended |
| TrackUpload.TrackNumberReadBack | backend/controllers/releaseController.ts:110-112 | the client's rendering of a track number is stored as that number exactly when it fits the INT column; otherwise the insert fails |
| TrackUpload.ExplicitReadBack | backend/controllers/releaseController.ts:112 | the client's "true"/"false" is stored as the flag it came from |
| TrackUpload.ReceivedTrack | src/components/features/release/Step3Tracks.tsx:17-23 | each text field the server reads is the client's value for it |
| TrackUpload.StoredTrack | backend/controllers/releaseController.ts:106-113 | for a track number within the INT range, the inserted row carries the track's number, title, flag and texts, and the two audio paths |
| ReportController.CountScoped | backend/controllers/reportController.ts:11 | the scoped count never exceeds the number of releases |
| ReportController.StatusGroupsCorrect | backend/controllers/reportController.ts:14 | `GROUP BY status` has one group per status, with that status's count in scope; the groups add up to the scoped total |
| ReportController.SumOrZero | backend/controllers/reportController.ts:39 | an empty sum shows as 0 |
| ReportController.SumOrZeroIsSum | backend/controllers/reportController.ts:39 | the NULL default agrees with the plain sum in every case |
| ReportController.JoinedRevenueIsOwned | backend/controllers/reportController.ts:21 | with unique release ids, role user's joined revenue is the sum of the revenues of its own releases |
| ReportController.GetDashboardStats | backend/controllers/reportController.ts:6-47 | releases, revenue and statuses are counted in the caller's scope; the user count is 0 for role user and otherwise the number of users with role user |
| ReportController.UserTotalsIgnoreOthers | backend/controllers/reportController.ts:19-22 | another user's release changes none of role user's counts |
| ReportController.ScopeIsMonotone | backend/controllers/reportController.ts:11-20 | staff count every release, and role user never counts more |
| AuthController.FindByEmail | dist-server/backend/controllers/authController.js:41-42 | a user with the address is found exactly when one exists |
| AuthController.FindById | dist-server/backend/controllers/authController.js:69-70 | a user with the id is found exactly when one exists |
| AuthController.Register | dist-server/backend/controllers/authController.js:5-33 | a missing field gives 400 and a known address 409, both without change; otherwise exactly one row with role user is appended under the next id, with the hash and the database clock's reading as its creation time; the token and reply carry it; unique addresses stay unique |
| AuthController.Login | dist-server/backend/controllers/authController.js:34-63 | missing fields give 400; failure happens exactly for an unknown address or a refused password, both as 401 Invalid credentials; success yields a token with the stored id, email and role |
| AuthController.LoginFailuresAlike | dist-server/backend/controllers/authController.js:43-50 | an unknown address and a wrong password give identical answers |
| AuthController.GetMe | dist-server/backend/controllers/authController.js:64-80 | 401 without a caller, 404 when the id has no row; otherwise 200 with that row's id, name, email, role and creation time, and no hash |
| AuthController.LoginAfterRegister | dist-server/backend/controllers/authController.js:19-22 | a newly registered address and password log in as the new account with role user |
| AuthController.GetMeAfterRegister | dist-server/backend/controllers/authController.js:69-73 | the newly registered id is found by `getMe`, with the row's creation time |

## Left out

- Network, browser and database I/O are left out. Every request's outcome is a parameter: the
  server's reply, or success versus failure. The loading flags, console logging and toasts are
  not modelled.
- `FileReader` is not modelled: its loaded data URL is the parameter of `PreviewLoaded`.
- Form libraries: react-hook-form's own state and messages are not modelled. The form values are
  parameters, and the required-field checks are predicates.
- The order of `Object.entries` over keys that RHF adds itself is not modelled. The field order
  is the order the form declares, followed by the stored `cover_file` and `cover_preview`. No
  property depends on that order.
- Date.now, Math.random, the current working directory and the database clock are parameters.
- Directory creation (`fs.mkdirSync`) is not modelled.
- The 50 MiB limit is a constant and a predicate; multer's streaming is not modelled.
- bcrypt and JWT are foreign calls. The hash is a function parameter and the password check is a
  predicate parameter. A token is its payload; the signature and the 24-hour expiry are not modelled.
- The authentication middleware is not modelled: the caller arrives already decoded.
- SQL column constraints are not enforced (the ENUMs, the UNIQUE email key, the foreign keys).
  The one exception is `addTrack`'s NOT NULL title and INT track number, which make the insert
  fail with 500.
- A request's `:id` arrives as text, and MySQL's conversion of it to a number is not modelled.
  Ids are integers.
- Email comparison is exact, although MySQL's default collation compares case-insensitively.
- MySQL returns `SUM` as a decimal string; amounts here are integer cents.
- `GROUP BY` row order is unspecified. The model groups in first-seen order, and no property
  depends on that order.
- Route wiring, static serving and the Express middleware stack are not modelled. Two facts are
  carried over: the release routes use backend/middleware/upload
  (dist-server/backend/routes/releaseRoutes.js:4), and the PATCH route accepts files only under
  `cover` (`Step2BasicInfo.SingleFileAccepted`, from line 9 of that file).
- TrackUpload.TextField: for a name sent more than once it reads the last value, while multer
  gives the array of values (`TrackUpload.BodyField`). How a handler treats such an array is not
  modelled; step 3 never repeats a name (`TrackUpload.TrackBodySendsNamesOnce`).
- Concurrency between requests is not modelled: each handler is one atomic step.
- Files left on disk after a failed insert are not modelled.
- ReleaseStore.Store.UpdateTrack: requires `index <= |tracks|`. A JavaScript assignment past the
  end leaves holes, which a `seq` cannot hold.
- ReleaseController.NumericText: assumes MySQL's strict SQL mode, where a text the INT column
  cannot take exactly makes the insert fail. Texts that MySQL may still convert are read here as
  no number: leading or trailing spaces, a fractional part, an exponent. Step 3 never sends them,
  since it posts `toString()` of an integer.
- NodePath.Join: joins with one '/'. Node's `path.join` also resolves `.` and `..`, collapses
  repeated slashes, and gives a relative path for an empty directory. The two agree for an absolute,
  normalised directory such as `process.cwd()` returns and a plain name, which is how the
  upload code calls it.
- NodePath.ExtName: names with trailing slashes are not modelled; the posix algorithm first drops
  them.
- Placeholder.Capitalize: upper-cases only the ASCII letters a-z; Unicode case mapping is not modelled.
- Names outside a sequence of ASCII characters are not treated specially; strings are sequences
  of `char`.
- Icons, CSS classes and the rest of the rendered markup are not modelled.
- dist-server/backend/controllers/reportController.js is a compiled copy of the TypeScript handler
  and is not modelled separately.
