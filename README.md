# CareerSaarathi job portal client — a Dafny model

This project models the logic of the React client of the CareerSaarathi job
portal. It covers three user roles: job seekers, employers and administrators.
It covers:

- **Session.** The session kept in `localStorage`: login writes it, logout
  clears it, and the route guard and the sidebar read it.
- **Form pages.** The handlers of the pages that edit a form in memory: the
  resume, the company profile, posting and updating a job, and posting and
  updating a blog. Each handler is proved to change only what it names. Each
  add handler is proved to be undone by the matching remove.
- **Checks before a request.** The phone-number and date checks of the resume
  and the job forms, and the e-mail, code and password checks of the
  password reset.
- **List pages.** Job search with filters and pages, blog pagination, the
  employer's and the administrator's job lists, and the interview schedule of
  an applicant list.
- **Code entry.** The six-cell verification code pages.

JavaScript values are a JSON-like `Js.Value`. A form object is a
`Js.Record = map<string, Value>`, so one key space covers a form's fields, as
in a JavaScript object. What a handler does outside its own state is a list of
`Js.Effect`: a navigation, a page load, a request, or a toast. Most form
handlers are functions from the old state to the new one. Handlers that copy a
list into a fresh array and edit it in place are methods over `array`.
Examples are `Lists.SpliceOut`, `MyApplication.HandleArrayChange` and
`BlogForms.HandleTagChange`. The pages whose handlers update component state
step by step are classes with `modifies` clauses: job search, both code-entry
pages, the password reset, the applicant list, the sidebar and the session
store. Dates are integer timestamps. `now` and the parsing of a date text
(`toDate`, `parse`, `isoDay`) are parameters. An invalid date is `None`, and it
compares false with everything, as NaN does.

## Model

| member | source | states |
|---|---|---|
| Session.Get | client/src/Protected.js:11 | `getItem` gives a value exactly for a stored key, and that key's value |
| Session.SessionStore.constructor | client/src/pages/forms/LogIn.jsx:32-34 | the store starts with the given items |
| Session.SessionStore.GetItem | client/src/Protected.js:11 | `getItem` gives a value exactly for a stored key, and then that key's stored value |
| Session.SessionStore.SetItem | client/src/pages/forms/LogIn.jsx:32 | `setItem` sets one key and keeps every other |
| Session.SessionStore.RemoveItem | client/src/components/Navbar/Sidebar.jsx:27 | `removeItem` drops one key and keeps every other |
| Protected.Navigations | client/src/Protected.js:9-26 | a missing or empty token navigates to "/login", and only then is it first. A role other than the required one, a missing role included, navigates to "/unauthorized", last. Both fire for a session failing both checks; neither fires for a valid session |
| Protected.RunGuard | client/src/Protected.js:9-26 | one run of the effect reads the store without writing it and issues exactly `Navigations` |
| Protected.NavigationsReadTwoKeys | client/src/Protected.js:11-18 | two stores that agree on authToken and role get the same navigations |
| Protected.Render | client/src/Protected.js:7-38 | the Outlet is rendered exactly when pageLoading is false, which is its only value |
| LogIn.StoredFlag | client/src/pages/forms/LogIn.jsx:30-32 | the stored profile flag is "true" exactly for a true flag, and is never empty |
| LogIn.LoginWrites | client/src/pages/forms/LogIn.jsx:32-34 | login adds exactly hasProfile, authToken and role with the reply's values; every other key is kept |
| LogIn.RedirectLandsInOwnSubtree | client/src/pages/forms/LogIn.jsx:36-56 | admin goes to "/admin" whatever the flag. A jobseeker or employer goes to the profile form exactly when the flag is not true. Any other role goes to "/default-dashboard", and only the three known roles have a guarded subtree. For those, the redirect lies inside it |
| LogIn.FailureMessage | client/src/pages/forms/LogIn.jsx:67-74 | a reply's message or "Login failed"; "No response received from the server" with no reply; the generic text otherwise |
| LogIn.HandleSubmit | client/src/pages/forms/LogIn.jsx:13-76 | a resolved reply (2xx) with status 200 writes the three keys and redirects by role, and any other 2xx does nothing. A rejection, which covers every non-2xx reply, leaves the store alone. A 401 with `isVerified === false` goes to the verify page; other rejections show `FailureMessage` |
| Sidebar.Items | client/src/components/Navbar/Sidebar.jsx:75-126 | the logo is first and logout is last; links render only with a profile, and then all six render |
| Sidebar.ProfileFlag | client/src/components/Navbar/Sidebar.jsx:21-24 | hasProfile holds exactly when the stored value is the string "true" |
| Sidebar.ActiveLinkUnique | client/src/components/Navbar/Sidebar.jsx:44-113 | on the path of a link exactly that link is highlighted, and on any path at most one link is |
| Sidebar.SidebarState.constructor | client/src/components/Navbar/Sidebar.jsx:17-18 | both flags start false |
| Sidebar.SidebarState.Mount | client/src/components/Navbar/Sidebar.jsx:21-24 | mounting sets hasProfile from the store and leaves the menu alone |
| Sidebar.SidebarState.ToggleMenu | client/src/components/Navbar/Sidebar.jsx:18 | the menu icon flips showSidebar |
| Sidebar.SidebarState.ClickLink | client/src/components/Navbar/Sidebar.jsx:44-50 | following a link closes the sidebar |
| Sidebar.SidebarState.Rendered | client/src/components/Navbar/Sidebar.jsx:75-126 | the logo is first and logout last; some link shows exactly when the hasProfile state is true, and then all six show |
| Sidebar.HandleLogout | client/src/components/Navbar/Sidebar.jsx:26-42 | the five session keys are removed before the request; "/login" is loaded whether it succeeds or fails |
| SessionFlows.LoginThenGuard | client/src/pages/forms/LogIn.jsx:32-56 | after a login with a non-empty token, the guard of the user's own role issues no navigation, and for a known role the redirect lies inside its guarded subtree |
| SessionFlows.EmptyTokenLoginIsTurnedAway | client/src/Protected.js:10-15 | a login whose token is empty is sent back to "/login" by the guard |
| SessionFlows.LogoutThenGuard | client/src/components/Navbar/Sidebar.jsx:26-31 | after logout, every guard sends the user to "/login" and then to "/unauthorized" |
| SessionFlows.LoginThenSidebar | client/src/components/Navbar/Sidebar.jsx:21-24 | after a login the sidebar shows its links exactly when the reply's profile flag was true |
| SessionFlows.LoginThenResumeSave | client/src/pages/jobseeker/MyApplication.jsx:217-219 | after any login the resume submit uses PUT, even when the profile flag was false and the sidebar hides its links |
| Lists.RemoveAt | client/src/pages/jobseeker/MyApplication.jsx:124-135 | `splice(i, 1)`: an in-range index drops that element and shifts the later ones down; any other index keeps the list |
| Lists.FilterFromSpec | client/src/pages/employer/CreateProfile.jsx:60 | filtering out index i gives the same list as splicing out i |
| Lists.MapFromSpec | client/src/pages/employer/CreateProfile.jsx:44-46 | mapping index i to v replaces only position i; an out-of-range index keeps the list |
| Lists.FilterIsSplice | client/src/pages/employer/CreateProfile.jsx:57-62 | `filter((_, j) => j !== i)` equals `RemoveAt` |
| Lists.MapIsReplace | client/src/pages/employer/CreateProfile.jsx:41-48 | `map((x, j) => j === i ? v : x)` equals the update at i, or no change |
| Lists.AppendThenRemoveLast | client/src/pages/employer/CreateProfile.jsx:50-62 | appending one element and removing the last index gives the list back |
| Lists.SpliceOut | client/src/pages/admin/UpdateBlog.jsx:121-123 | copying into a fresh array and splicing in place computes `RemoveAt` |
| MyApplication.WithNested | client/src/pages/jobseeker/MyApplication.jsx:62-122 | replacing one nested list changes only that entry's child field |
| MyApplication.HandleChange | client/src/pages/jobseeker/MyApplication.jsx:43-49 | only the named top-level field changes, to the typed text |
| MyApplication.HandleArrayChange | client/src/pages/jobseeker/MyApplication.jsx:51-60 | only element `index` of the list changes; length and other elements are kept |
| MyApplication.HandleNestedChange | client/src/pages/jobseeker/MyApplication.jsx:62-77 | with no entry at the index nothing changes; otherwise only that entry's named field changes |
| MyApplication.HandleNestedArrayChange | client/src/pages/jobseeker/MyApplication.jsx:79-96 | with no nested list nothing changes; otherwise only one element of that entry's nested list changes |
| MyApplication.HandleNestedAdd | client/src/pages/jobseeker/MyApplication.jsx:98-109 | with no nested list nothing changes; otherwise the value is appended to that entry's nested list |
| MyApplication.HandleNestedRemove | client/src/pages/jobseeker/MyApplication.jsx:111-122 | with no nested list nothing changes; otherwise one element is spliced out of that entry's nested list |
| MyApplication.NestedAddThenRemove | client/src/pages/jobseeker/MyApplication.jsx:98-122 | a nested add followed by the removal of the new last element restores the record |
| MyApplication.RemoveEntry | client/src/pages/jobseeker/MyApplication.jsx:124-135 | only the named list changes: spliced at the index, or `[]` when the field was not a list |
| MyApplication.HandleRemove | client/src/pages/jobseeker/MyApplication.jsx:124-135 | the copy-and-splice handler computes `RemoveEntry` |
| MyApplication.HandleAdd | client/src/pages/jobseeker/MyApplication.jsx:137-154 | only the named list changes. With a child name it gains one entry `{child: [initialValue]}`. Without one it gains one "", and `initialValue` is ignored; a missing list counts as empty |
| MyApplication.AddThenRemove | client/src/pages/jobseeker/MyApplication.jsx:124-154 | an add followed by the removal of the new last index restores the record |
| MyApplication.DigitsThenColon | client/src/pages/jobseeker/MyApplication.jsx:176 | a number followed by ":" can be read back unambiguously |
| MyApplication.TailsDiffer | client/src/pages/jobseeker/MyApplication.jsx:174-208 | the messages of two different rules in one section differ |
| MyApplication.MessageInjective | client/src/pages/jobseeker/MyApplication.jsx:167 | equal messages come from the same error, so a `Set` of messages is a set of errors |
| MyApplication.EntryErrorsSteps | client/src/pages/jobseeker/MyApplication.jsx:174-190 | an entry's errors are the start-before-end check, then the future end, then the future start, one after the other |
| MyApplication.RuleErrorsSpec | client/src/pages/jobseeker/MyApplication.jsx:170-209 | checking rules of increasing rank reports exactly the listed rules the entry breaks, each naming the entry, in rank order |
| MyApplication.EntryErrorsSpec | client/src/pages/jobseeker/MyApplication.jsx:170-209 | one entry's errors are exactly the failed checks, in source order, without repeats |
| MyApplication.OrderedPairwise | client/src/pages/jobseeker/MyApplication.jsx:166-209 | in a list where each error precedes the next, every error precedes every later one, so none occurs twice |
| MyApplication.OrderedAppend | client/src/pages/jobseeker/MyApplication.jsx:170-209 | joining two ordered error lists, the last of the first before the head of the second, stays ordered |
| MyApplication.SectionErrorsMembers | client/src/pages/jobseeker/MyApplication.jsx:170-209 | an error is among a section's errors exactly when an entry before the bound breaks its rule |
| MyApplication.EntryErrorsPlace | client/src/pages/jobseeker/MyApplication.jsx:170-209 | an entry's errors come in rule order and all name that entry of its section |
| MyApplication.SectionErrorsPlace | client/src/pages/jobseeker/MyApplication.jsx:170-209 | every error of a section names that section and one of the entries checked so far |
| MyApplication.SectionErrorsOrdered | client/src/pages/jobseeker/MyApplication.jsx:170-209 | a section's errors come ordered by entry, then by rule |
| MyApplication.SectionErrorsSpec | client/src/pages/jobseeker/MyApplication.jsx:170-209 | a section's errors are ordered by entry and hold exactly the failed checks of its entries |
| MyApplication.DateErrorsOrdered | client/src/pages/jobseeker/MyApplication.jsx:166-209 | the reported errors are ordered by section, entry and rule, and none repeats |
| MyApplication.DateErrorsMembers | client/src/pages/jobseeker/MyApplication.jsx:166-209 | an error is reported exactly when its entry's dates break its rule |
| MyApplication.DateErrorsSpec | client/src/pages/jobseeker/MyApplication.jsx:166-209 | all errors are ordered, work experience first, without duplicates. An error is present exactly when its entry's dates fail its check. Work: start ≥ end, end > now, start > now. Education: start ≥ graduation, start > now |
| MyApplication.CheckWorkEntry | client/src/pages/jobseeker/MyApplication.jsx:170-191 | one `forEach` step over a work entry adds exactly that entry's errors |
| MyApplication.CheckEducationEntry | client/src/pages/jobseeker/MyApplication.jsx:194-209 | one `forEach` step over an education entry adds exactly that entry's errors |
| MyApplication.EntryNotYetReported | client/src/pages/jobseeker/MyApplication.jsx:170-209 | no error of an entry is reported before the loop reaches that entry, so each `add` is a true insertion |
| MyApplication.EducationNotYetReported | client/src/pages/jobseeker/MyApplication.jsx:194-209 | the work errors never clash with an education error |
| MyApplication.CollectWorkErrors | client/src/pages/jobseeker/MyApplication.jsx:170-191 | the work-experience loop collects exactly that section's errors |
| MyApplication.CollectEducationErrors | client/src/pages/jobseeker/MyApplication.jsx:194-209 | the education loop appends exactly that section's errors to the work errors |
| MyApplication.CollectDateErrors | client/src/pages/jobseeker/MyApplication.jsx:166-209 | the two loops collect exactly `DateErrors` |
| MyApplication.SaveRequest | client/src/pages/jobseeker/MyApplication.jsx:217-219 | PUT to "/resume/resume" exactly when the stored flag is a non-empty string, "false" included; otherwise POST to "/resume" |
| MyApplication.ValidateSubmit | client/src/pages/jobseeker/MyApplication.jsx:156-229 | a phone number whose length is not 10 is rejected before any date check. Any date error rejects with exactly `DateErrors`. Only a record passing both is sent |
| MyApplication.RejectionToasts | client/src/pages/jobseeker/MyApplication.jsx:160-214 | the phone toast, or one toast per error in order |
| MyApplication.SaveCompleted | client/src/pages/jobseeker/MyApplication.jsx:230-245 | success stores hasProfile "true", toasts, navigates and reloads; failure only toasts |
| CreateProfile.InitialProfileShape | client/src/pages/employer/CreateProfile.jsx:8-25 | values, specialties and positions start as `[""]`; headquarters and socialMedia start with all subfields "" |
| CreateProfile.SetField | client/src/pages/employer/CreateProfile.jsx:116-175 | a scalar input changes only its own field and keeps the form's shape |
| CreateProfile.SetSubField | client/src/pages/employer/CreateProfile.jsx:185-210 | a headquarters input, and likewise a socialMedia input (lines 331-387), changes only that subfield; siblings and other fields are kept |
| CreateProfile.HandleChange | client/src/pages/employer/CreateProfile.jsx:41-48 | only position `index` of the list changes; an out-of-range index keeps the list |
| CreateProfile.HandleAddItem | client/src/pages/employer/CreateProfile.jsx:50-55 | the list grows by one, its old contents are a prefix of the new list, and the new last element is the default |
| CreateProfile.HandleRemoveItem | client/src/pages/employer/CreateProfile.jsx:57-62 | exactly position `index` is dropped, the rest keep their order; an out-of-range index keeps the list |
| CreateProfile.AddThenRemove | client/src/pages/employer/CreateProfile.jsx:50-62 | an add followed by the removal of the new last index restores the record |
| CreateProfile.HandleSubmit | client/src/pages/employer/CreateProfile.jsx:84-101 | there is no client-side check. hasProfile becomes "true" only on success, which then navigates, toasts and reloads |
| JobFields.HandleInputChange | client/src/pages/employer/PostingApplication.jsx:30-36 | a scalar input changes only its own field; the update form's handler (UpdateJob.jsx lines 47-50) is the same |
| JobFields.HandleAddItem | client/src/pages/employer/PostingApplication.jsx:47-52 | only the named list changes, by one "" at the end; the update form's add (UpdateJob.jsx lines 68-73) is the same |
| JobFields.RemoveItem | client/src/pages/employer/PostingApplication.jsx:54-61 | only the named list changes: element `index` is spliced out and the later ones shift down |
| JobFields.HandleRemoveItem | client/src/pages/employer/UpdateJob.jsx:75-84 | the copy-and-splice handler computes `RemoveItem` |
| JobFields.AddThenRemove | client/src/pages/employer/PostingApplication.jsx:47-61 | an add followed by the removal of the new last index restores the record |
| PostingApplication.InitialJobShape | client/src/pages/employer/PostingApplication.jsx:10-28 | every list starts as `[""]` and submitted starts false |
| PostingApplication.HandleArrayInputChange | client/src/pages/employer/PostingApplication.jsx:38-45 | only element `index` of the named list changes |
| PostingApplication.HandleSubmit | client/src/pages/employer/PostingApplication.jsx:63-89 | a deadline at or before now is refused with its message and no request; an unparsable one passes. submitted becomes true only after a successful POST |
| PostingApplication.RenderNavigation | client/src/pages/employer/PostingApplication.jsx:91-93 | the page moves to the posted-jobs list exactly when submitted is truthy |
| UpdateJob.InitialJobShape | client/src/pages/employer/UpdateJob.jsx:10-27 | before the fetch every list is empty |
| UpdateJob.FetchCompleted | client/src/pages/employer/UpdateJob.jsx:32-42 | loading ends either way; the error is set only when the fetch fails |
| UpdateJob.Render | client/src/pages/employer/UpdateJob.jsx:108-114 | the form shows exactly when not loading and no error is set |
| UpdateJob.FetchThenRender | client/src/pages/employer/UpdateJob.jsx:32-114 | after the first fetch the form shows exactly when it succeeded, and otherwise the fetch error does |
| UpdateJob.HandleArrayInputChange | client/src/pages/employer/UpdateJob.jsx:52-66 | only element `index` changes; an out-of-range index keeps the list |
| UpdateJob.SubmitEffects | client/src/pages/employer/UpdateJob.jsx:88-105 | a deadline at or before now gives only the error toast; an invalid one passes. Navigation follows only a successful PUT |
| BlogForms.AddTagField | client/src/pages/admin/UpdateBlog.jsx:105-110 | exactly one "" is appended to the tags; title, picture and content are kept; the posting form's add (PostingBlog.jsx lines 42-47) is the same |
| BlogForms.HandleTagChange | client/src/pages/admin/UpdateBlog.jsx:111-119 | only tag `index` changes; the posting form's tag edit (PostingBlog.jsx lines 28-36) is the same |
| BlogForms.RemoveTag | client/src/pages/admin/UpdateBlog.jsx:121-128 | tag `index` is spliced out and the rest shift down; the other fields are kept |
| BlogForms.RemoveTagField | client/src/pages/admin/PostingBlog.jsx:49-56 | the copy-and-splice handler computes `RemoveTag` |
| BlogForms.AddThenRemoveTag | client/src/pages/admin/UpdateBlog.jsx:105-128 | adding a tag field and removing it restores the form |
| BlogForms.EditorChanged | client/src/pages/admin/UpdateBlog.jsx:64-72 | an editor change replaces only the content |
| BlogForms.TagValuesOfTags | client/src/pages/admin/UpdateBlog.jsx:89-91 | the "tags" parts built from a list carry that list's values in order |
| BlogForms.PayloadCarriesTags | client/src/pages/admin/UpdateBlog.jsx:85-91 | the "tags" entries of the payload are the tags, one each, in list order |
| BlogForms.BuildPayload | client/src/pages/admin/PostingBlog.jsx:65-71 | the loop builds `Payload`: title, content, picture and one part per tag |
| BlogForms.SubmitEffects | client/src/pages/admin/PostingBlog.jsx:73-82 | the request comes first, and "/admin/all-blog" is navigated to exactly when it succeeds |
| FindingJob.RequestParams | client/src/pages/otherPages/FIndingJob.jsx:20-26 | the params are keyword, page and every applied filter, and a filter overrides a key of the same name |
| FindingJob.JobSearch.constructor | client/src/pages/otherPages/FIndingJob.jsx:7-14 | query "", filters empty, page 1 of 1, no error, not loading |
| FindingJob.JobSearch.Params | client/src/pages/otherPages/FIndingJob.jsx:20-26 | the next request carries the current query as keyword, the current page, and every applied filter, a filter overriding a key of the same name |
| FindingJob.JobSearch.FetchStarted | client/src/pages/otherPages/FIndingJob.jsx:17-26 | loading starts and the request carries the current query, page and filters; nothing else changes |
| FindingJob.JobSearch.FetchCompleted | client/src/pages/otherPages/FIndingJob.jsx:17-36 | a reply sets the jobs, options and both page numbers. A failure sets the error and keeps the rest. Loading ends either way and the error is never cleared |
| FindingJob.JobSearch.HandleFilterChange | client/src/pages/otherPages/FIndingJob.jsx:42-47 | one filter is set and the others kept; the query clears and the page goes to 1. Picking the placeholder stores "" |
| FindingJob.JobSearch.HandleRemoveFilter | client/src/pages/otherPages/FIndingJob.jsx:49-54 | only that filter is removed; the query clears and the page goes to 1 |
| FindingJob.JobSearch.ResetFilters | client/src/pages/otherPages/FIndingJob.jsx:60-64 | filters `{}`, query "" and page 1 |
| FindingJob.JobSearch.HandleSearchChange | client/src/pages/otherPages/FIndingJob.jsx:66-69 | the query is set and the page goes to 1; filters are kept |
| FindingJob.JobSearch.HandleSearchSubmit | client/src/pages/otherPages/FIndingJob.jsx:71-75 | the page goes to 1 and loading starts, but the request sent carries the query, page and filters from before the reset; nothing else changes |
| FindingJob.JobSearch.HandlePageChange | client/src/pages/otherPages/FIndingJob.jsx:77-79 | the page becomes exactly the one given |
| FindingJob.JobSearch.ClickPrevious | client/src/pages/otherPages/FIndingJob.jsx:224-230 | Previous is enabled only off page 1, steps back one, keeps an in-range page in range, and changes nothing else |
| FindingJob.JobSearch.ClickNext | client/src/pages/otherPages/FIndingJob.jsx:234-240 | Next is enabled only off the last page, steps forward one, keeps an in-range page in range, and changes nothing else |
| FindingJob.PageChangeKeepsRequest | client/src/pages/otherPages/FIndingJob.jsx:20-79 | a page change alters only the page parameter of the next request |
| ReadBlogs.SliceIndex | client/src/pages/otherPages/ReadBlogs.jsx:28 | a `slice` bound is clamped into the list |
| ReadBlogs.WindowOfPage | client/src/pages/otherPages/ReadBlogs.jsx:26-28 | page p shows `blogs[5(p-1) .. min(5p, n))`: at most five, in list order |
| ReadBlogs.PageCount | client/src/pages/otherPages/ReadBlogs.jsx:92 | the button count is ⌈n/5⌉ |
| ReadBlogs.PageLabels | client/src/pages/otherPages/ReadBlogs.jsx:91-104 | the buttons are labelled 1 to ⌈n/5⌉ |
| ReadBlogs.Paginate | client/src/pages/otherPages/ReadBlogs.jsx:31 | paginate(k) sets the page to exactly k and keeps the blogs |
| ReadBlogs.WindowsPrefix | client/src/pages/otherPages/ReadBlogs.jsx:26-28 | the windows of pages 1..k, joined, are the first 5k blogs |
| ReadBlogs.AllPagesCoverBlogs | client/src/pages/otherPages/ReadBlogs.jsx:26-92 | the windows of all pages, joined, are the whole list: nothing is lost or repeated |
| ReadBlogs.Truncate | client/src/pages/otherPages/ReadBlogs.jsx:36-51 | text within the limit returns the content unchanged; longer text gives its first maxLength characters and "..." |
| Js.NumericCellText | client/src/pages/forms/Verify.jsx:47 | on a one-character cell, `!isNaN` accepts exactly "", a digit or white space |
| CodeCells.Split | client/src/pages/forms/Verify.jsx:75 | `split("")` gives one one-character cell per character |
| CodeCells.JoinSplit | client/src/pages/forms/ForgotPassword.jsx:101-103 | joining the cells of a split text gives the text back |
| CodeCells.JoinLength | client/src/pages/forms/Verify.jsx:21 | a code joined from one-character cells is no longer than the number of cells |
| Verify.PastePrefix | client/src/pages/forms/Verify.jsx:74-77 | a paste overwrites the first cells with its characters and keeps the rest |
| Verify.VerifyForm.constructor | client/src/pages/forms/Verify.jsx:7-14 | six empty cells |
| Verify.VerifyForm.InputChange | client/src/pages/forms/Verify.jsx:46-58 | numeric text, "" included, sets only that cell. Anything else toasts and keeps the cells. Six cells remain |
| Verify.VerifyForm.KeyDown | client/src/pages/forms/Verify.jsx:60-65 | Backspace in an empty cell after the first clears the previous cell; otherwise nothing changes |
| Verify.VerifyForm.Paste | client/src/pages/forms/Verify.jsx:67-83 | at most six digits, none included, overwrite a prefix and keep the rest. Anything else toasts and keeps the cells. Six cells remain |
| Verify.PasteFullCode | client/src/pages/forms/Verify.jsx:21-78 | pasting a six-digit code makes the sent code exactly that text |
| Verify.VerificationEffects | client/src/pages/forms/Verify.jsx:20-38 | a 200 toasts and goes to "/login". Another 2xx status shows the failure toast. A non-2xx status, which axios rejects, and a missing reply show the error toast |
| ForgotPassword.ShapeFromPattern | client/src/pages/forms/ForgotPassword.jsx:17-21 | a text the pattern accepts has no white space and exactly one "@", with a "." inside the domain |
| ForgotPassword.PatternFromShape | client/src/pages/forms/ForgotPassword.jsx:17-21 | a text of that shape is accepted by the pattern |
| ForgotPassword.ValidEmailIffShape | client/src/pages/forms/ForgotPassword.jsx:17-21 | isValidEmail holds exactly when: there is no white space, there is exactly one "@" with something before it, and a "." in the part after it has a character on each side |
| ForgotPassword.PhaseOf | client/src/pages/forms/ForgotPassword.jsx:113-177 | the password step shows exactly when verified. The e-mail step shows exactly when the code was neither sent nor verified |
| ForgotPassword.ResetForm.constructor | client/src/pages/forms/ForgotPassword.jsx:9-15 | empty fields, six empty cells, neither flag set |
| ForgotPassword.ResetForm.SendCode | client/src/pages/forms/ForgotPassword.jsx:23-36 | an invalid address toasts with no request and stays on the e-mail step. A successful request sets codeSent. The step never moves back |
| ForgotPassword.ResetForm.VerifyCode | client/src/pages/forms/ForgotPassword.jsx:38-50 | the joined cells are sent; success sets codeVerified; the step never moves back |
| ForgotPassword.ResetForm.UpdatePassword | client/src/pages/forms/ForgotPassword.jsx:52-68 | differing passwords toast with no request; a successful request toasts and goes to "/login" |
| ForgotPassword.ResetForm.InputChange | client/src/pages/forms/ForgotPassword.jsx:70-84 | numeric text sets only that cell; anything else toasts and keeps the code |
| ForgotPassword.ResetForm.KeyDown | client/src/pages/forms/ForgotPassword.jsx:86-92 | Backspace in an empty cell after the first clears the previous cell |
| ForgotPassword.ResetForm.Paste | client/src/pages/forms/ForgotPassword.jsx:94-108 | one or more digits, no more than the current cells, replace the whole code; the code's length becomes the paste's. Anything else toasts and keeps the code |
| AllApplicants.Field | client/src/pages/employer/AllApplicants.jsx:33 | a missing key reads as a falsy value |
| AllApplicants.FormatDate | client/src/pages/employer/AllApplicants.jsx:92-96 | a falsy date, missing or "", formats to "" |
| AllApplicants.EntryShape | client/src/pages/employer/AllApplicants.jsx:24-42 | an entry holds exactly Date and Time. A reply without data gives two "". A failed lookup or an invalid date gives no entry |
| AllApplicants.InitialStateKeys | client/src/pages/employer/AllApplicants.jsx:20-44 | an id has an entry exactly when some applicant with that id had a successful lookup |
| AllApplicants.InitialStateValue | client/src/pages/employer/AllApplicants.jsx:32-35 | that entry is the last such applicant's |
| AllApplicants.Closed | client/src/pages/employer/AllApplicants.jsx:36-46 | every loaded id starts with its dialog closed |
| AllApplicants.WithField | client/src/pages/employer/AllApplicants.jsx:77-86 | only the named field of one applicant's entry changes; every other entry and field is kept |
| AllApplicants.ButtonLabel | client/src/pages/employer/AllApplicants.jsx:206-208 | "Update Interview" exactly when the applicant has a Date, else "Schedule Interview" |
| AllApplicants.PdfRowsSpec | client/src/pages/employer/AllApplicants.jsx:109-136 | a row is exported for each applicant with a Date and for no other. The table is non-empty exactly when hasScheduledInterviews holds |
| AllApplicants.ApplicantsPage.constructor | client/src/pages/employer/AllApplicants.jsx:9-12 | empty list, entries and dialogs |
| AllApplicants.ApplicantsPage.FetchCompleted | client/src/pages/employer/AllApplicants.jsx:15-47 | the loop builds `InitialState`, with every loaded id's dialog closed |
| AllApplicants.ApplicantsPage.HandleChange | client/src/pages/employer/AllApplicants.jsx:77-86 | the entries become `WithField` |
| AllApplicants.ApplicantsPage.OpenDialog | client/src/pages/employer/AllApplicants.jsx:199-204 | opens one applicant's dialog |
| AllApplicants.ApplicantsPage.CloseDialog | client/src/pages/employer/AllApplicants.jsx:242-252 | Cancel closes one applicant's dialog and keeps its entry, unsaved edits included |
| AllApplicants.ApplicantsPage.ScheduleInterview | client/src/pages/employer/AllApplicants.jsx:15-75 | a missing entry or a date at or before now toasts with no POST and no change. A failed POST toasts. A successful one awaits fetchData: its result replaces the applicants and the entries, unsaved edits included (a failed list request keeps them). Only then is the dialog of the id closed in the dialog map read at the click |
| AllApplicants.ApplicantsPage.CollectPdfRows | client/src/pages/employer/AllApplicants.jsx:107-120 | the `forEach` loop collects exactly `PdfRows` |
| Jobs.FetchCompleted | client/src/pages/employer/PostedApplication.jsx:14-28 | the reply's jobs replace the list, or a failure sets "Error fetching posted jobs. Please try again later."; loading ends either way. The review page's fetch (ApproveJob.jsx lines 12-26) is the same |
| PostedApplication.WithoutIdSpec | client/src/pages/employer/PostedApplication.jsx:33 | the kept jobs are exactly those without the id, and there are no more of them than jobs |
| PostedApplication.WithoutIdAppend | client/src/pages/employer/PostedApplication.jsx:33 | the filter distributes over concatenation, so kept jobs keep their order |
| PostedApplication.WithoutIdIdempotent | client/src/pages/employer/PostedApplication.jsx:30-39 | a list without the id is unchanged, so a second delete changes nothing |
| PostedApplication.DeleteCompleted | client/src/pages/employer/PostedApplication.jsx:30-39 | success removes every job with the id; failure keeps the list and sets the error |
| PostedApplication.HandleDelete | client/src/pages/employer/PostedApplication.jsx:30-39 | one DELETE of "/job/job/<id>" with no body; then success removes every job with the id, and failure keeps the list and sets the error |
| PostedApplication.StatusColor | client/src/pages/employer/PostedApplication.jsx:49-60 | Accepted is green, Rejected red, Pending blue, anything else gray |
| PostedApplication.Status | client/src/pages/employer/PostedApplication.jsx:62-64 | "Live" exactly when the deadline is strictly after now, else "Expired" |
| PostedApplication.ColorFollowsStatus | client/src/pages/employer/PostedApplication.jsx:62-68 | the text is green exactly for a live job |
| PostedApplication.RowColor | client/src/pages/employer/PostedApplication.jsx:70-72 | "#CDFADB" for even rows, "#DAFFFB" for odd |
| PostedApplication.RowColorsAlternate | client/src/pages/employer/PostedApplication.jsx:70-72 | neighbouring rows differ and rows two apart agree |
| PostedApplication.Render | client/src/pages/employer/PostedApplication.jsx:85-90 | "No posted jobs found." shows exactly when not loading and the list is empty; the table shows otherwise once loaded, never both |
| PostedApplication.FirstFetchThenRender | client/src/pages/employer/PostedApplication.jsx:14-90 | after the first fetch the loading text is gone; a failure shows the error and "No posted jobs found.", a reply shows its table or, when empty, that text |
| ApproveJob.SentStatuses | client/src/pages/admin/ApproveJob.jsx:32-120 | the PUT body carries only "Accepted" or "Rejected", and "Accepted" exactly from the accept button |
| ApproveJob.ReplaceByIdSpec | client/src/pages/admin/ApproveJob.jsx:38-40 | each job with the id becomes the returned job and every other is kept; length and order are kept |
| ApproveJob.ActionCompleted | client/src/pages/admin/ApproveJob.jsx:32-45 | success replaces by id; failure keeps the list and sets the error built from the status word |
| ApproveJob.HandleAction | client/src/pages/admin/ApproveJob.jsx:32-45 | one PUT of "/job/status/<id>" whose body holds only the status, then the list as `ActionCompleted` leaves it |
| ApproveJob.StatusCell | client/src/pages/admin/ApproveJob.jsx:84-88 | an undefined, null or "" status reads "Not available"; any other value is shown |
| ApproveJob.DateCell | client/src/pages/admin/ApproveJob.jsx:91-98 | a missing or falsy date reads "Not available" |
| JobDescription.ApplyEffects | client/src/pages/jobseeker/JobDescription.jsx:33-50 | success toasts the server message and goes to "/dashboard/appliedJob". A 400 or 404 shows the backend message; another status shows "Server Error"; no response shows "Network Error" |
| JobDescription.OneToast | client/src/pages/jobseeker/JobDescription.jsx:33-50 | exactly one toast is shown, a success one exactly when the apply went through |
| JobDescription.ShowApply | client/src/pages/jobseeker/JobDescription.jsx:212-219 | Apply is hidden exactly when the stored role is "admin" |

## Left out

- Network, toasts and navigation are not performed. Each handler takes the
  outcome of its request as a parameter and returns the effects it would
  cause, in order. React's batching of state updates, re-renders, and the
  refetch effects that run on state changes are not modelled.
- Focus handling (`inputRefs`), the draft-js editor, `FileReader` image
  previews (`handleImageChange` in the company profile), the jsPDF drawing,
  and `URLSearchParams`/`encodeURIComponent` are left out. Only the rows of
  the PDF table are modelled.
- Date parsing and formatting (`new Date`, `Date.parse`, `toISOString`,
  `toLocaleDateString`) are parameters. This includes the resume's and the
  applicant list's `formatDate` beyond the empty case.
- The text extraction of `truncateContent`, which uses a DOM element, is a
  parameter of `ReadBlogs.Truncate`.
- The first fetches of the resume, the company profile and a blog to update are not
  modelled. Neither are the blog list fetch of the blog page (`/blog/blogs`)
  and the job page's fetch of its job (`/job/<id>`), with its error text. The fetches whose results are modelled are the job search
  (`FindingJob.JobSearch.FetchCompleted`), the job to update
  (`UpdateJob.FetchCompleted`), the applicants with their interview lookups
  (`AllApplicants.ApplicantsPage.FetchCompleted`) and the two lists of posted
  jobs (`Jobs.FetchCompleted`).
- The routing table, the other sidebars, and the copies of the status
  helpers in other pages are left out. Each repeats logic modelled once here.
- Js.IsNumericText: does not model `isNaN` on multi-character texts such as
  "1e3" or "0x1". It is exact on the one-character texts a cell holds.
- MyApplication.HandleNestedChange: requires the entry to be an object, and
  does not model the spread of a string entry into its characters.
- MyApplication.HandleArrayChange: requires an in-range index. The source
  would pad the array with holes for a larger one.
- JobFields.HandleInputChange: does not model a scalar input whose name is a
  list field, which the forms never render.
- AllApplicants.ApplicantsPage.FetchCompleted: applies the lookups in list
  order. With a repeated applicant id, the source keeps the entry of whichever
  lookup finishes last.
- AllApplicants.ApplicantsPage.ScheduleInterview: the text of the engine's
  `TypeError` for a missing entry and the text of a failed request are
  parameters.
- ApproveJob.ActionCompleted: a reply without a `job` would put `undefined`
  into the list. The model takes the returned job as a record.
- FindingJob.JobSearch.HandleSearchSubmit: the direct fetch and the fetch
  that the page reset triggers run at the same time. Whichever reply settles
  last decides the listing and the current page. The model applies replies
  through `FetchCompleted` in the order they are given.
- LogIn.HandleSubmit: the "Login successful" toast is not part of the
  outcome.
- ForgotPassword.ResetForm.Paste: follows the code. After a shorter paste, the
  next paste is bounded by the shorter code, not by six.
- MyApplication.HandleNestedArrayChange: requires an in-range index into the
  nested list, which the rendered inputs guarantee.
- PostingApplication.HandleArrayInputChange: requires an in-range index,
  which the rendered inputs guarantee.
- BlogForms.HandleTagChange: requires an in-range index, which the rendered
  tag inputs guarantee.
- ReadBlogs.Truncate: lengths and the cut count characters. JavaScript's
  `length` and `substring` count UTF-16 code units, so a text with characters
  outside the Basic Multilingual Plane (emoji, say) is cut later than the
  page would cut it.
- MyApplication.ValidateSubmit: the phone length counts characters, not
  UTF-16 code units, for the same reason.
- Verify.VerifyForm.InputChange, Verify.VerifyForm.KeyDown and
  ForgotPassword.ResetForm.InputChange: require the cell index to be in
  range, which the rendered cells guarantee.
- The posting blog form keeps no content field. `BlogForms.InitialPostForm`
  carries an empty one, and the submit takes the content from the editor.
