# indublog core in Dafny

A Dafny model of the logic inside indublog, a mocked React blogging UI.
It covers:

- the three admin list managers (blogs, users, authors): search plus status facet, update by id, delete by id, and the moderation buttons each status offers;
- the admin sidebar's role policy and active-link rule;
- the mock sign-in against a fixed table of development credentials, and the session record it stores;
- the editor's tag list;
- the newsletter form's email checks;
- the read-only aggregations of the public authors, dashboard and categories pages.

Each source file has one module; the table below names them.
Four helper modules support them:

- `Seqs` holds the `filter`, `map` and `reduce` combinators and what they preserve;
- `Text` holds `toLowerCase`, `includes`, `startsWith`, `trim` and one-character `replace`;
- `Session` holds the stored `adminUser` record and the store slot it lives in;
- `Wrappers` holds `Option`.

The components are modelled in the same form as the source:

- Component state that handlers overwrite becomes a `class` whose fields are that state (`BlogManager`, `UserManager`, `AuthorManager`, `Sidebar`, `AuthPage`, `WritePage`, `NewsletterPage`).
- Every handler becomes a method whose `ensures` gives the whole new state in terms of a specification function.
- Properties of those functions are proved as lemmas.
- For the three managers, the filter effect that re-runs after every change is modelled by calling `ApplyFilter` at the end of each mutator. The class predicate `Valid()` records that the visible list is always the filter of the current list.
- The three read-only pages are plain functions over their constant arrays, which are included as constants.

The model follows the code as written; in particular:

- `canAccess` does not look at `isAuthenticated`: a stored record with `isAuthenticated: false` but an allowed role still sees the entries.
- The user list's button is not a pure toggle: every status other than `active`, `pending` included, is offered "Activate".
- The blog page's stat cards only count total, pending, published and draft; rejected blogs are counted in the total only.
- The author page's search ignores an empty query only because every string contains "" (there is no guard). The admin managers do guard on an empty term.

## Model

| member | source | states |
|---|---|---|
| Seqs.Filter | src/components/admin/BlogManagement.tsx:116-131 | `Array.prototype.filter`: the result is no longer than the input |
| Seqs.FilterMultiplicity | src/components/admin/BlogManagement.tsx:116-131 | an element that satisfies the predicate keeps every copy in the filtered list, and any other element keeps none |
| Seqs.FilterMembers | src/components/admin/BlogManagement.tsx:116-131 | a value is in the filtered list exactly when it is in the input and satisfies the predicate |
| Seqs.FilterIsSubseq | src/components/admin/BlogManagement.tsx:116-131 | the filtered list keeps the input's order: it is a subsequence of the input |
| Seqs.FilterCongruent | src/components/admin/BlogManagement.tsx:116-131 | two predicates that agree on every element give the same filtered list |
| Seqs.FilterMonotone | src/components/AdminSidebar.tsx:143-144 | filtering by a predicate that implies another gives a subsequence of filtering by the other |
| Seqs.FilterStep | src/components/admin/BlogManagement.tsx:116-131 | filtering a suffix decides its first element, then filters the rest |
| Seqs.FilterThreeSteps | src/components/admin/BlogManagement.tsx:116-131 | filtering a suffix decides its first three elements in order, then filters the rest |
| Seqs.FilterSnoc | src/components/admin/BlogManagement.tsx:116-131 | filtering a list with one more element at the end adds that element exactly when it passes |
| Seqs.FilterConcat | src/components/admin/BlogManagement.tsx:116-131 | filtering a concatenation concatenates the filtered parts |
| Seqs.FilterNone | src/components/admin/BlogManagement.tsx:116-131 | when no element passes, the filtered list is empty |
| Seqs.FilterAll | src/components/admin/BlogManagement.tsx:116-131 | when every element passes, the filtered list is the input |
| Seqs.FilterPrefix | src/pages/Categories.tsx:84 | when exactly the first `k` elements pass, the filtered list is the first `k` elements |
| Seqs.FilterPartitionCounts | src/pages/Categories.tsx:84-85 | the `p` part and the rest together have the input's length and the input's multiset of elements |
| Seqs.IsSubseqReflexive | src/components/AdminSidebar.tsx:143-144 | every list is a subsequence of itself |
| Seqs.IsSubseqTransitive | src/components/AdminSidebar.tsx:143-144 | a subsequence of a subsequence is a subsequence |
| Seqs.IsSubseqMembers | src/components/AdminSidebar.tsx:143-144 | every element of a subsequence is an element of the larger list |
| Seqs.IsSubseqLength | src/components/AdminSidebar.tsx:143-144 | a subsequence is no longer than the list it comes from |
| Seqs.Map | src/components/admin/BlogManagement.tsx:134-137 | `Array.prototype.map`: same length, with each position mapped by the function |
| Seqs.FilterPartition | src/pages/Categories.tsx:84-85 | a filter by `p` and one by `!p` are disjoint, their lengths add up to the input's, and their element multisets add up to the input's |
| Seqs.SumPartition | src/pages/Authors.tsx:282-294 | a `reduce` sum over the input is the sum over the `p` part plus the sum over the rest |
| Text.LowerChar | src/components/admin/BlogManagement.tsx:120 | ASCII `toLowerCase` on one character: upper-case letters move down by 32, everything else is kept, and the result is never an upper-case letter |
| Text.Lower | src/components/admin/BlogManagement.tsx:120 | `toLowerCase` keeps the length, lowers each position by `LowerChar`, and leaves no ASCII upper-case letter |
| Text.LowerIdempotent | src/components/admin/BlogManagement.tsx:120-122 | lowering twice is the same as lowering once |
| Text.IncludesIff | src/components/admin/BlogManagement.tsx:120-122 | `includes` holds exactly when the needle occurs at some position of the haystack |
| Text.IncludesEmpty | src/pages/Authors.tsx:105-109 | every string includes the empty string |
| Text.LeadingWhitespace | src/pages/Write.tsx:68 | the length of the run of white space `s` starts with: every character before it is white space, and the one at it is not |
| Text.TrailingWhitespace | src/pages/Write.tsx:68 | the length of the run of white space `s` ends with: every character in it is white space, and the one before it is not |
| Text.Trim | src/pages/Write.tsx:68 | `trim` gives the slice that starts after the leading white space and is followed only by white space; it is empty exactly when the input is all white space |
| Text.TrimEnds | src/pages/Write.tsx:68 | a non-empty trimmed string neither starts nor ends with white space |
| Text.IndexOf | src/pages/Auth.tsx:49 | the first position holding the character, or the length when none does |
| Text.ReplaceFirst | src/pages/Auth.tsx:49 | `replace` with a one-character pattern: same length, only the first occurrence is replaced, and the string is unchanged when the pattern is absent |
| Text.IndexOfAfter | src/pages/Auth.tsx:49 | in `p + [c] + rest` with no `c` in `p`, the first `c` is at position `|p|` |
| Text.ReplaceFirstAfter | src/pages/Auth.tsx:49 | in `p + [from] + rest` with no `from` in `p`, `replace` turns exactly that `from` into `to` |
| Session.SessionStore.constructor | src/components/AdminSidebar.tsx:32-33 | the `adminUser` key starts absent |
| Session.SessionStore.SetItem | src/pages/Auth.tsx:47-51 | the slot holds exactly the given record |
| Session.SessionStore.RemoveItem | src/components/AdminSidebar.tsx:39 | the slot is empty afterwards, whatever it held (so removing twice leaves it empty) |
| AdminSidebar.RoleDisplayName | src/components/AdminSidebar.tsx:43-50 | `super_admin`, `editor` and `viewer` map to "Super Admin", "Editor" and "Viewer"; any other string is returned unchanged |
| AdminSidebar.CanAccess | src/components/AdminSidebar.tsx:52-55 | no session is refused for every list, the empty one included; a session is admitted exactly when its role is on the list |
| AdminSidebar.CanAccessIgnoresAuthenticatedFlag | src/components/AdminSidebar.tsx:52-55 | changing `isAuthenticated` never changes an access decision |
| AdminSidebar.VisibleItemsKeepOrder | src/components/AdminSidebar.tsx:143-144 | the visible entries are a subsequence of `navigationItems`, in the same order |
| AdminSidebar.NoSessionNoItems | src/components/AdminSidebar.tsx:52-53 | without a session no entry is shown |
| AdminSidebar.VisibleItemsUnfold | src/components/AdminSidebar.tsx:59-103 | the visible list is each of the seven entries, in order, kept or dropped by its own allow-list |
| AdminSidebar.FilterSeven | src/components/AdminSidebar.tsx:143-144 | filtering a seven-entry list decides each entry in turn, in order |
| AdminSidebar.EditorKeeps | src/components/AdminSidebar.tsx:59-103 | an `editor` session passes the allow-lists of Dashboard, Blog Management, Users, Authors and Analytics and fails those of Settings and Admin Users |
| AdminSidebar.ViewerKeeps | src/components/AdminSidebar.tsx:59-103 | a `viewer` session passes the allow-lists of Dashboard, Users and Authors only |
| AdminSidebar.SuperAdminSeesAll | src/components/AdminSidebar.tsx:59-103 | a `super_admin` session sees all seven entries |
| AdminSidebar.EditorSees | src/components/AdminSidebar.tsx:59-103 | an `editor` session sees Dashboard, Blog Management, Users, Authors and Analytics, in that order |
| AdminSidebar.ViewerSees | src/components/AdminSidebar.tsx:59-103 | a `viewer` session sees Dashboard, Users and Authors, in that order |
| AdminSidebar.VisibilityMonotone | src/components/AdminSidebar.tsx:59-103 | the viewer's list is a subsequence of the editor's, and the editor's of the super admin's |
| AdminSidebar.IsActive | src/components/AdminSidebar.tsx:146-148 | an `exact` entry is active exactly when the route equals its path; any other entry exactly when the route starts with its path |
| AdminSidebar.ActiveRoute | src/components/AdminSidebar.tsx:146-148 | an active Dashboard forces the route `/admin`; any other active entry forces the two route characters after `/admin/` to match its path |
| AdminSidebar.AtMostOneActive | src/components/AdminSidebar.tsx:146-148 | for every pathname, at most one of the seven entries is active, the exact Dashboard entry included |
| AdminSidebar.Sidebar.constructor | src/components/AdminSidebar.tsx:28 | `currentUser` starts null |
| AdminSidebar.Sidebar.LoadCurrentUser | src/components/AdminSidebar.tsx:31-36 | the stored record is adopted when present; otherwise `currentUser` is kept |
| AdminSidebar.Sidebar.HandleLogout | src/components/AdminSidebar.tsx:38-41 | the stored session is cleared, and the component's own state is not touched |
| Auth.FindIndex | src/pages/Auth.tsx:41-43 | `find` stops at the first entry with equal email and password: every earlier entry fails the match |
| Auth.FindCredential | src/pages/Auth.tsx:41-43 | some entry is found exactly when one matches both fields, and it is the first matching one |
| Auth.LowerSuperAdmin | src/pages/Auth.tsx:49 | "Super Admin" lower-cases to "super admin" |
| Auth.ReplaceSuperAdmin | src/pages/Auth.tsx:49 | replacing the first space of "super admin" gives "super_admin" |
| Auth.NormalisedSuperAdmin | src/pages/Auth.tsx:49 | "Super Admin" is stored as `super_admin` |
| Auth.NormalisedEditor | src/pages/Auth.tsx:49 | "Editor" is stored as `editor` |
| Auth.NormalisedViewer | src/pages/Auth.tsx:49 | "Viewer" is stored as `viewer` |
| Auth.NormalisedRoles | src/pages/Auth.tsx:23-25 | all three display names normalise to the sidebar's role strings |
| Auth.DisplayedRoles | src/components/AdminSidebar.tsx:43-50 | the sidebar names the stored roles `super_admin`, `editor` and `viewer` "Super Admin", "Editor" and "Viewer" |
| Auth.RoleRoundTripOf | src/pages/Auth.tsx:49 | each of the three table roles, normalised and then shown by the sidebar, reads as itself |
| Auth.RoleRoundTrip | src/pages/Auth.tsx:49 | for every development credential, the sidebar's display name of the stored role is the credential's own role name |
| Auth.DevCredentialSignsIn | src/pages/Auth.tsx:22-26 | each development entry's own email and password find exactly that entry |
| Auth.DistinctEmails | src/pages/Auth.tsx:22-26 | no two development logins share an email |
| Auth.WrongPasswordRefused | src/pages/Auth.tsx:41-43 | for every development login and every password other than its own, its email with that password finds nothing |
| Auth.DevSessionsSeeTheirItems | src/pages/Auth.tsx:47-51 | the admin, editor and viewer logins produce sessions that see 7, 5 and 3 sidebar entries |
| Auth.AuthPage.constructor | src/pages/Auth.tsx:12-16 | empty form, not loading |
| Auth.AuthPage.HandleInputChange | src/pages/Auth.tsx:28-33 | the field named by the input takes the value; the other field and `loading` are kept |
| Auth.AuthPage.HandleDevCredentialClick | src/pages/Auth.tsx:77-82 | the form becomes the credential's email and password |
| Auth.AuthPage.HandleSubmit | src/pages/Auth.tsx:35-75 | succeeds exactly when some entry matches, and then stores the matched email with the normalised role and `isAuthenticated` true; on failure the store keeps its old content; `loading` is false at the end on both paths |
| Auth.SignInWithDevCredential | src/pages/Auth.tsx:77-82 | filling the form from any development entry and submitting always succeeds, storing that entry's normalised role |
| BlogManagement.StatusName | src/components/admin/BlogManagement.tsx:37 | the four status strings; none of them is "all" |
| BlogManagement.StatusNameInjective | src/components/admin/BlogManagement.tsx:37 | distinct statuses have distinct strings |
| BlogManagement.FilteredBlogsSpec | src/components/admin/BlogManagement.tsx:116-132 | the result keeps the list's order, and it holds a blog exactly when the blog passes the lowercase title/author/category search (or the term is empty) and the facet (or the facet is "all") |
| BlogManagement.FilteredBlogsMultiplicity | src/components/admin/BlogManagement.tsx:116-132 | a blog that passes the search and the facet keeps all its copies, and one that fails keeps none |
| BlogManagement.UnfilteredShowsAll | src/components/admin/BlogManagement.tsx:119-127 | an empty term with facet "all" gives the list unchanged |
| BlogManagement.UnknownFacetShowsNothing | src/components/admin/BlogManagement.tsx:127-129 | a facet that is neither "all" nor a status gives the empty list |
| BlogManagement.WithStatusSpec | src/components/admin/BlogManagement.tsx:134-137 | length, order and ids are kept; blogs with the id get the new status and keep every other field; every other blog is unchanged |
| BlogManagement.WithStatusIdempotent | src/components/admin/BlogManagement.tsx:134-137 | repeating an update changes nothing more |
| BlogManagement.UpdatedBlogInFacet | src/components/admin/BlogManagement.tsx:134-137 | after an update the blog appears under its new status's facet |
| BlogManagement.WithoutBlogSpec | src/components/admin/BlogManagement.tsx:145-146 | no blog with the id remains; every other blog keeps all its copies, in order; an absent id changes nothing |
| BlogManagement.DeleteAfterUpdate | src/components/admin/BlogManagement.tsx:145-146 | deleting a blog makes an earlier status update of it irrelevant |
| BlogManagement.OfferedActions | src/components/admin/BlogManagement.tsx:356-384 | delete is offered on every row |
| BlogManagement.ModerationOnlyWhenPending | src/components/admin/BlogManagement.tsx:356-377 | approve and reject are offered exactly on pending rows, and they lead out of pending |
| BlogManagement.StatusCountsSum | src/components/admin/BlogManagement.tsx:212-254 | each per-status count is at most the total, and the four counts add up to the total |
| BlogManagement.BlogManager.constructor | src/components/admin/BlogManagement.tsx:45-48 | empty lists, empty term, facet "all" |
| BlogManagement.BlogManager.ApplyFilter | src/components/admin/BlogManagement.tsx:116-132 | the visible list becomes the filter of the current list; nothing else changes |
| BlogManagement.BlogManager.LoadBlogs | src/components/admin/BlogManagement.tsx:61-114 | the list becomes the four mock blogs, and the visible list follows |
| BlogManagement.BlogManager.SetSearchTerm | src/components/admin/BlogManagement.tsx:186 | the term changes and the visible list follows |
| BlogManagement.BlogManager.SetStatusFilter | src/components/admin/BlogManagement.tsx:190 | the facet changes and the visible list follows |
| BlogManagement.BlogManager.HandleStatusUpdate | src/components/admin/BlogManagement.tsx:134-137 | only published or rejected is accepted; the list is updated by id and the visible list follows |
| BlogManagement.BlogManager.HandleDelete | src/components/admin/BlogManagement.tsx:145-146 | the blogs with the id leave the list, and the visible list follows |
| UserManagement.StatusName | src/components/admin/UserManagement.tsx:33 | the three status strings |
| UserManagement.StatusNameInjective | src/components/admin/UserManagement.tsx:33 | distinct statuses have distinct strings |
| UserManagement.SearchReadsNameAndEmailOnly | src/components/admin/UserManagement.tsx:109-114 | users that agree on name and email match the same terms, whatever their other fields |
| UserManagement.FilteredUsersSpec | src/components/admin/UserManagement.tsx:106-121 | the result keeps the list's order, and it holds a user exactly when they pass the name/email search (or the term is empty) and the facet (or the facet is "all") |
| UserManagement.FilteredUsersMultiplicity | src/components/admin/UserManagement.tsx:106-121 | a user who passes the search and the facet keeps all their copies, and one who fails keeps none |
| UserManagement.FacetKeepsExactlyThatStatus | src/components/admin/UserManagement.tsx:116-118 | with an empty term, a status facet gives exactly the users with that status, in order |
| UserManagement.WithStatusSpec | src/components/admin/UserManagement.tsx:123-126 | length, order and ids are kept, and only the status of users with the id changes |
| UserManagement.OfferedAction | src/components/admin/UserManagement.tsx:292-312 | the button always changes the status, never leads to pending, and leads to suspended exactly for an active user |
| UserManagement.OfferedActionCycle | src/components/admin/UserManagement.tsx:292-312 | Suspend is offered exactly to active users; pending users are offered activation; active and suspended toggle, so pressing twice from active gives active |
| UserManagement.PressingOfferedButtonTwiceRestores | src/components/admin/UserManagement.tsx:292-312 | for an active or suspended user with a unique id, pressing the row's button twice gives back the original list |
| UserManagement.StatusCountsSum | src/components/admin/UserManagement.tsx:183-225 | the active, suspended and pending counts add up to the total, and each is at most the total |
| UserManagement.UserManager.constructor | src/components/admin/UserManagement.tsx:41-44 | empty lists, empty term, facet "all" |
| UserManagement.UserManager.ApplyFilter | src/components/admin/UserManagement.tsx:106-121 | the visible list becomes the filter of the current list; nothing else changes |
| UserManagement.UserManager.LoadUsers | src/components/admin/UserManagement.tsx:55-104 | the list becomes the four mock users, and the visible list follows |
| UserManagement.UserManager.SetSearchTerm | src/components/admin/UserManagement.tsx:158 | the term changes and the visible list follows |
| UserManagement.UserManager.SetStatusFilter | src/components/admin/UserManagement.tsx:162 | the facet changes and the visible list follows |
| UserManagement.UserManager.HandleStatusUpdate | src/components/admin/UserManagement.tsx:123-126 | only active or suspended is accepted; the list is updated by id and the visible list follows |
| AuthorManagement.StatusName | src/components/admin/AuthorManagement.tsx:39 | the three status strings |
| AuthorManagement.FilteredAuthorsSpec | src/components/admin/AuthorManagement.tsx:121-137 | the result keeps the list's order, and it holds an author exactly when they pass the name/email/specialization search (or the term is empty) and the facet (or the facet is "all") |
| AuthorManagement.FilteredAuthorsMultiplicity | src/components/admin/AuthorManagement.tsx:121-137 | an author who passes the search and the facet keeps all their copies, and one who fails keeps none |
| AuthorManagement.WithStatusSpec | src/components/admin/AuthorManagement.tsx:139-142 | length, order and ids are kept, and only the status of authors with the id changes |
| AuthorManagement.OfferedAction | src/components/admin/AuthorManagement.tsx:331-350 | an offered button always changes the status, and never leads to pending |
| AuthorManagement.OfferRule | src/components/admin/AuthorManagement.tsx:331-350 | Verify is offered exactly to pending authors, Suspend exactly to verified ones, and nothing exactly to suspended ones |
| AuthorManagement.OfferedPathsEnd | src/components/admin/AuthorManagement.tsx:331-350 | two offered presses in a row end at suspended, which offers nothing |
| AuthorManagement.TotalsIgnoreStatus | src/components/admin/AuthorManagement.tsx:238-252 | a status update changes neither the article total nor the views total |
| AuthorManagement.TotalArticlesSnoc | src/components/admin/AuthorManagement.tsx:238 | the article total of a list extended by one author grows by that author's count |
| AuthorManagement.VerifiedCount | src/components/admin/AuthorManagement.tsx:224 | the verified count is at most the number of authors |
| AuthorManagement.VerifyRaisesCount | src/components/admin/AuthorManagement.tsx:224 | verifying a pending author whose id is unique raises the verified count by exactly one |
| AuthorManagement.AbsentIdUnchanged | src/components/admin/AuthorManagement.tsx:139-142 | updating an id that no author carries, to any status, leaves the list as it was |
| AuthorManagement.AuthorManager.constructor | src/components/admin/AuthorManagement.tsx:44-47 | empty lists, empty term, facet "all" |
| AuthorManagement.AuthorManager.ApplyFilter | src/components/admin/AuthorManagement.tsx:121-137 | the visible list becomes the filter of the current list; nothing else changes |
| AuthorManagement.AuthorManager.LoadAuthors | src/components/admin/AuthorManagement.tsx:58-119 | the list becomes the four mock authors, and the visible list follows |
| AuthorManagement.AuthorManager.SetSearchTerm | src/components/admin/AuthorManagement.tsx:185 | the term changes and the visible list follows |
| AuthorManagement.AuthorManager.SetStatusFilter | src/components/admin/AuthorManagement.tsx:189 | the facet changes and the visible list follows |
| AuthorManagement.AuthorManager.HandleStatusUpdate | src/components/admin/AuthorManagement.tsx:139-142 | only verified or suspended is accepted; the list is updated by id and the visible list follows |
| Write.AddTagSpec | src/pages/Write.tsx:67-75 | a successful add appends the trimmed input as the one new last tag; a refused add (empty after trimming, or already present) changes neither the tags nor the input |
| Write.AddKeepsWellFormed | src/pages/Write.tsx:67-75 | adding keeps the tags non-empty and distinct |
| Write.SecondAddIsNoOp | src/pages/Write.tsx:73 | after a successful add the input is empty, so an immediate second add changes nothing |
| Write.RemoveTagSpec | src/pages/Write.tsx:77-82 | every copy of the tag goes, every other tag keeps all its copies in order, and removing an absent tag changes nothing |
| Write.RemoveKeepsWellFormed | src/pages/Write.tsx:77-82 | removing keeps the tags non-empty and distinct |
| Write.SubseqKeepsWellFormed | src/pages/Write.tsx:77-82 | any subsequence of a well-formed tag list is well-formed |
| Write.AddThenRemove | src/pages/Write.tsx:67-82 | adding a new tag and then removing it gives back the original tags |
| Write.WritePage.constructor | src/pages/Write.tsx:13-22 | empty form, empty tag input, edit mode |
| Write.WritePage.SetCurrentTag | src/pages/Write.tsx:240 | only the tag input changes |
| Write.WritePage.TogglePreview | src/pages/Write.tsx:124 | only the preview switch flips |
| Write.WritePage.AddTag | src/pages/Write.tsx:67-75 | the tags and the input become their after-add values, every other field is kept, and the tags stay well-formed |
| Write.WritePage.RemoveTag | src/pages/Write.tsx:77-82 | the tags become their after-remove value, every other field is kept, and the tags stay well-formed |
| Write.WritePage.HandleKeyPress | src/pages/Write.tsx:84-89 | Enter does exactly what the add does; any other key changes nothing |
| Write.WritePage.HandleInputChange | src/pages/Write.tsx:53-58 | the named text field takes the value; tags, category, tag input and preview switch are kept |
| Write.WritePage.HandleCategoryChange | src/pages/Write.tsx:60-65 | only the category changes |
| Write.SelectCategory | src/pages/Write.tsx:182-191 | choosing an entry of the select sets the category to that entry of the fixed list, and nothing else changes |
| Newsletter.CheckEmailSpec | src/pages/Newsletter.tsx:19-36 | the empty email is refused first; a non-empty email without "@" or without "." is refused next; exactly the emails with both pass |
| Newsletter.IncludesChar | src/pages/Newsletter.tsx:29 | including a one-character string is containing that character |
| Newsletter.ReplayAccepted | src/pages/Newsletter.tsx:38-58 | the accepted path ends subscribed and not loading, whatever the flags were before |
| Newsletter.WritesSpec | src/pages/Newsletter.tsx:17-60 | loading is entered, and subscribed is raised, exactly for an email with "@" and "."; a refused email leaves both flags as they were; an accepted one ends subscribed and not loading |
| Newsletter.NewsletterPage.constructor | src/pages/Newsletter.tsx:12-14 | empty email, not loading, not subscribed |
| Newsletter.NewsletterPage.SetEmail | src/pages/Newsletter.tsx:122 | only the email changes |
| Newsletter.NewsletterPage.HandleSubscribe | src/pages/Newsletter.tsx:17-60 | the outcome is that of the ordered checks; the flag updates happen in the order loading, subscribed, not loading, and only on acceptance; the final flags are those updates replayed on the old flags |
| AuthorsPage.FeaturedPartition | src/pages/Authors.tsx:102-103 | featured and non-featured authors are each in list order, disjoint, and together cover every author with its multiplicity |
| AuthorsPage.ShownCount | src/pages/Authors.tsx:208 | the heading's count is at most the number of non-featured authors, which is at most the number of authors |
| AuthorsPage.FilteredAuthorsSpec | src/pages/Authors.tsx:105-109 | the search result is in list order within the non-featured authors; it holds an author exactly when they are not featured and the query is in their name, bio or some category, ignoring case; such an author keeps all its copies |
| AuthorsPage.EmptyQueryKeepsAll | src/pages/Authors.tsx:105-109 | an empty query shows every non-featured author |
| AuthorsPage.TotalsSplit | src/pages/Authors.tsx:277-294 | the author count and the article, follower and like totals are each the featured part plus the rest, so featured authors are included |
| Dashboard.TabsSpec | src/pages/Dashboard.tsx:150-199 | each tab holds exactly the articles with its status, in list order and with all their copies; no article is in both |
| Dashboard.StatsSpec | src/pages/Dashboard.tsx:60-65 | the total is the number of articles; the published tile is the published tab's length; the published and draft counts together are at most the total |
| Dashboard.DisjointTabsFit | src/pages/Dashboard.tsx:150-199 | the two tabs together are never longer than the article list |
| Dashboard.UserArticleStats | src/pages/Dashboard.tsx:27-65 | on its own articles the dashboard shows 3 articles, 2 published, 2115 views and 145 likes |
| Categories.SectionsPartition | src/pages/Categories.tsx:84-85 | both sections are in page order, disjoint, and together hold every category, so the count is featured plus other |
| Categories.TotalSplits | src/pages/Categories.tsx:177 | the article total is the featured sections' counts plus the others' |
| Categories.PageTotal | src/pages/Categories.tsx:177-182 | the page shows 730 articles over 8 categories |
| Categories.PageFeatured | src/pages/Categories.tsx:84 | the featured sections are Technology, Design and Lifestyle, the first three entries |

## Left out

- Rendering: JSX, styling, icons, dialogs and badges. The Blog details dialog (`selectedBlog`, `showDetails`) is presentation only.
- Routing: `navigate('/admin')` after sign-in and `window.location.href = '/auth'` on logout. `HandleSubmit` returns `ok` to mark the redirect instead.
- Browser storage: `localStorage` is the `SessionStore` class with one slot. `JSON.stringify`/`JSON.parse` are not modelled; the record is stored as a value.
- Toasts and `console.log`: no effect on state.
- React effect scheduling: the filter effect is modelled by each mutator calling `ApplyFilter` at its end, and the mount effects by the `Load…` methods.
- Async timing: the simulated one-second request on the newsletter page succeeds at once.
- Catch blocks: the `catch` paths of the sign-in and newsletter handlers are not modelled; the model treats every step in their `try` blocks as succeeding.
- Newsletter.NewsletterPage.HandleSubscribe: does not model that the loading state is observable during the wait; the `writes` trace records the order of the flag updates instead.
- Text.Lower: Unicode case mapping is left out; only ASCII letters are lowered.
- Floating point: the author rating's star rendering, the thousands ("K") formatting of views, and date formatting. `rating` is kept as a `real` field and `TotalViews` is the raw sum.
- `isActiveLink` in the sidebar: it is never called.
- Write's `isAuthenticated`: a mock that is always true and never changed.
- Write's `handlePublish` and `handleSaveDraft`: they only log.
- The input event objects: `e.target.name` is modelled as an enumeration of the form's named inputs (`LoginField`, `FormField`), and `e.target.value` as a string.
- The other pages and components (Profile, Admin, Settings, Index, Explore, Blog, Navigation, BlogCard, CategorySidebar, Footer, ScrollToTop) are not part of this model. They only display data or log.
