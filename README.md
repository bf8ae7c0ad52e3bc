# Email Knowledge Base Builder — a Dafny model of its core

The Email Knowledge Base Builder lets a user pick emails from their Outlook mailbox and have a language model analyse them. Sensitive content is flagged. A human reviewer approves or rejects each analysed email before it goes into a searchable knowledge base. This project models the parts of the system that decide what happens to the data, and proves what they promise.

- **The three working views of the frontend.**
  - Each view is a class whose fields are the React state variables, and each handler is a method. The outcome of the backend call is an input (`Ui.Outcome`), so the model never performs the call.
  - "Filter emails" (`FilterSetupPage`): the email filter, the keyword list, the previews, the selection and submitting for analysis.
  - "Review" (`EmailReviewPage`): the filter projection, selection, single and bulk decisions, and the sensitivity colour and tag badge cells.
  - "Search" (`SearchPage`): the blank-query guard, and the search and item-loading transitions.
- **The navigation bar's active-route test** (`Navbar`), and its table of four routes.
- **The backend's in-memory stores.**
  - The review routes (`ReviewRoutes.ReviewStore`): a map from email id to review, kept together with the dictionary's insertion order.
  - The append-only audit log (`Audit.AuditLog`), with its filtered, stably sorted and sliced query.
  - The placeholder database (`DbSession.DummyDB`): a map from collection name to a list of items.
- **The backend's builders and mappers.**
  - The Microsoft Graph query and the JSON-to-record mapping (`Outlook`).
  - The attachment text extraction and its layout (`Parser`).
  - The text sent to the language model, and how its JSON answer becomes an analysis, including the fallback (`Llm`).
- **The enumerations and record defaults** of the data model (`EmailModels`).

Shared helpers live in `Wrappers`: Option, duplicate-free lists, Python and JavaScript `strip`/`trim` over ASCII whitespace, `join`, `split`, and decimal rendering.

Timestamps are opaque strings passed in as `now`. The current user's id is a parameter too. Python's string order is the lexicographic order `Audit.LexLe`.

## Model

| member | source | states |
|---|---|---|
| EmailModels.SensitivityLevelsComplete | backend/app/models/email.py:7-11 | there are exactly four sensitivity levels, every level is listed, and distinct levels have distinct names |
| EmailModels.DepartmentsComplete | backend/app/models/email.py:14-23 | there are exactly nine departments, all listed, under distinct names |
| EmailModels.PIITypesComplete | backend/app/models/email.py:26-38 | there are exactly twelve PII types, all listed, under distinct wire names |
| EmailModels.ReviewStatusesComplete | backend/app/models/email.py:41-44 | there are exactly three review statuses, all listed, under distinct names |
| EmailModels.EnumerationRoundTrips | backend/app/models/email.py:7-38 | parsing a value's wire name gives back the value; a string that parses is the name of the value it parses to |
| EmailModels.EmptyFilter | backend/app/models/email.py:55-60 | every field of the email filter is optional and absent by default |
| EmailModels.AnalysisWithoutPII | backend/app/models/email.py:88-96 | an analysis built without `pii_detected` has the empty list there, and every other field as given |
| EmailModels.NewReview | backend/app/models/email.py:99-106 | a new review is pending, with no review time, reviewer or notes, and keeps its id, content and analysis |
| EmailModels.DecisionStatus | backend/app/routes/review.py:67 | a decision is never pending: it gives approved exactly when `approved` is true, and rejected otherwise |
| Selection.Toggle | frontend/src/pages/EmailReview.tsx:178-184 | the id's membership flips, all other ids keep theirs, and a duplicate-free selection stays duplicate-free |
| Selection.ToggleTwice | frontend/src/pages/EmailReview.tsx:178-184 | an absent id is appended at the end, and toggling it again gives back the original selection |
| Selection.SelectAll | frontend/src/pages/EmailReview.tsx:187-193 | it compares lengths only: equal lengths empty the selection, otherwise the selection becomes the listed ids |
| Selection.SelectAllTwice | frontend/src/pages/FilterSetup.tsx:141-147 | from a selection of a different length, pressing select-all twice empties it; with nothing listed and nothing selected, it stays empty |
| EmailReviewPage.SetFilterField | frontend/src/pages/EmailReview.tsx:172-175 | only the named filter field takes the new value |
| EmailReviewPage.ApplyFilters | frontend/src/pages/EmailReview.tsx:146-169 | the projection is no longer than the list, and each entry meets every non-empty filter (is_private compared with `value == 'true'`) |
| EmailReviewPage.ApplyFiltersSelects | frontend/src/pages/EmailReview.tsx:146-169 | a review that meets the filters occurs in the projection exactly as often as in the list; one that does not meet them never occurs |
| EmailReviewPage.ApplyFiltersConcat | frontend/src/pages/EmailReview.tsx:146-169 | the projection keeps the fetched order: the projection of a concatenation is the projections of its parts, one after the other, and a single review is kept exactly when it meets the filters |
| EmailReviewPage.ApplyNoFilters | frontend/src/pages/EmailReview.tsx:146-168 | with all three filters empty, the projection is the whole list in order |
| EmailReviewPage.Decided | frontend/src/pages/EmailReview.tsx:211-216 | a decided review has the decision's status, review time and notes; its id, content, analysis and reviewer are unchanged |
| EmailReviewPage.DecideListed | frontend/src/pages/EmailReview.tsx:208-219 | the list keeps its length and order; entries whose id is in the decided set are decided, and all others are untouched |
| EmailReviewPage.DecideOneUnique | frontend/src/pages/EmailReview.tsx:208-219 | deciding an id that occurs once changes exactly that entry |
| EmailReviewPage.RedecisionOverwrites | frontend/src/pages/EmailReview.tsx:208-219 | prior status is never checked, so a second decision overwrites the first |
| EmailReviewPage.SensitivityColor | frontend/src/pages/EmailReview.tsx:300-313 | low, medium, high and critical map to green, blue, orange and red; the result is gray exactly for any other value |
| EmailReviewPage.SensitivityColorsDistinct | frontend/src/pages/EmailReview.tsx:300-313 | distinct levels get distinct colours, and no level gets gray |
| EmailReviewPage.TagsCell | frontend/src/pages/EmailReview.tsx:456-465 | the first min(n, 2) tags are shown; a "+k" badge with k = n − shown appears exactly when n > 2 |
| EmailReviewPage.TagsAccountedFor | frontend/src/pages/EmailReview.tsx:456-465 | shown tags plus the badge's number add up to the tag count, and the badge never reads "+0" |
| EmailReviewPage.EmailIds | frontend/src/pages/EmailReview.tsx:191 | the ids of the listed reviews, in display order |
| EmailReviewPage.EmailReviewView.constructor | frontend/src/pages/EmailReview.tsx:107-120 | the initial state: empty lists, no current review, empty notes and filters, nothing loading or submitting |
| EmailReviewPage.EmailReviewView.RunFilterEffect | frontend/src/pages/EmailReview.tsx:146-169 | the filtered list becomes the projection of the reviews under the current filters, and the reviews are unchanged |
| EmailReviewPage.EmailReviewView.LoadReviews | frontend/src/pages/EmailReview.tsx:123-143 | on success the reviews become the response and no toast appears; on failure they are kept and an error toast appears; loading always ends |
| EmailReviewPage.EmailReviewView.HandleFilterChange | frontend/src/pages/EmailReview.tsx:172-175 | only the named filter changes, and the projection follows it |
| EmailReviewPage.EmailReviewView.ToggleReviewSelection | frontend/src/pages/EmailReview.tsx:178-184 | the selection becomes the toggle of the id |
| EmailReviewPage.EmailReviewView.SelectAllReviews | frontend/src/pages/EmailReview.tsx:187-193 | the selection becomes select-all over the filtered ids |
| EmailReviewPage.EmailReviewView.OpenReviewDetails | frontend/src/pages/EmailReview.tsx:196-199 | the review becomes current and the drawer opens |
| EmailReviewPage.EmailReviewView.HandleReviewDecision | frontend/src/pages/EmailReview.tsx:202-246 | the call carries the current notes. On success the id's entries are decided, the id is deselected, the notes are cleared, the toast is success or info, and the drawer closes only when it showed that id. On failure only the submitting flag moves. Submitting always ends false |
| EmailReviewPage.EmailReviewView.HandleBulkDecision | frontend/src/pages/EmailReview.tsx:249-297 | an empty selection warns, makes no call and changes nothing. On success every selected entry is given the same status and notes, and the selection and notes are cleared. On failure reviews, selection and notes are kept |
| FilterSetupPage.SetField | frontend/src/pages/FilterSetup.tsx:86-89 | only the named field of the filter changes; the keywords are untouched |
| FilterSetupPage.AddKeyword | frontend/src/pages/FilterSetup.tsx:92-100 | the trimmed input is appended exactly when it is not blank and not already a keyword; otherwise the list is unchanged; duplicate-freedom is kept |
| FilterSetupPage.AddKeywordIdempotent | frontend/src/pages/FilterSetup.tsx:93 | adding the same input twice is the same as adding it once |
| FilterSetupPage.RemoveThenAdd | frontend/src/pages/FilterSetup.tsx:92-108 | removing a keyword and adding it back gives the same keywords as a multiset, with that keyword moved to the end |
| FilterSetupPage.HeaderCheckboxStates | frontend/src/pages/FilterSetup.tsx:389-390 | the header checkbox is never both checked and indeterminate; checked means select-all empties the selection, and indeterminate means it selects all |
| FilterSetupPage.PreviewIds | frontend/src/pages/FilterSetup.tsx:145 | the ids of the previews, in order |
| FilterSetupPage.FilterSetupView.constructor | frontend/src/pages/FilterSetup.tsx:50-61 | the initial state: folder "" and no keywords, an empty input, no previews or selection, nothing loading |
| FilterSetupPage.FilterSetupView.HandleFilterChange | frontend/src/pages/FilterSetup.tsx:86-89 | the filter becomes the update of the named field |
| FilterSetupPage.FilterSetupView.SetKeywordInput | frontend/src/pages/FilterSetup.tsx:289 | the input takes the typed text |
| FilterSetupPage.FilterSetupView.HandleAddKeyword | frontend/src/pages/FilterSetup.tsx:92-100 | the keyword is added, and the input cleared, only when it is accepted; otherwise nothing changes |
| FilterSetupPage.FilterSetupView.HandleRemoveKeyword | frontend/src/pages/FilterSetup.tsx:103-108 | every occurrence of the keyword is removed, the rest keep their order, and the other fields are untouched |
| FilterSetupPage.FilterSetupView.BeginPreview | frontend/src/pages/FilterSetup.tsx:111-117 | before the call, previews and selection are emptied and loading starts; the request is the current filter |
| FilterSetupPage.FilterSetupView.FinishPreview | frontend/src/pages/FilterSetup.tsx:116-128 | success stores the response; failure keeps the previews and shows an error toast; loading ends |
| FilterSetupPage.FilterSetupView.HandlePreviewEmails | frontend/src/pages/FilterSetup.tsx:111-129 | the selection ends empty. Success sets the previews to the response; failure leaves them empty with an error toast. Loading ends false |
| FilterSetupPage.FilterSetupView.ToggleEmailSelection | frontend/src/pages/FilterSetup.tsx:132-138 | the selection becomes the toggle of the id |
| FilterSetupPage.FilterSetupView.SelectAllEmails | frontend/src/pages/FilterSetup.tsx:141-147 | the selection becomes select-all over the preview ids |
| FilterSetupPage.FilterSetupView.HandleSubmitForAnalysis | frontend/src/pages/FilterSetup.tsx:150-181 | an empty selection warns and makes no call. Otherwise the selected ids are sent; success toasts and navigates to /review, failure toasts an error. The selection is kept either way |
| SearchPage.SearchView.constructor | frontend/src/pages/Search.tsx:109-117 | the initial state: empty query and results, total 0, no item, nothing loading, modal closed |
| SearchPage.SearchView.SetSearchQuery | frontend/src/pages/Search.tsx:185 | the query takes the typed text |
| SearchPage.SearchView.StartSearch | frontend/src/pages/Search.tsx:120-131 | a blank query warns, makes no call and changes nothing; otherwise the results are emptied and searching starts |
| SearchPage.SearchView.FinishSearch | frontend/src/pages/Search.tsx:133-146 | success replaces the results and the total; failure keeps the results, keeps the previous total and shows an error toast; searching ends |
| SearchPage.SearchView.HandleSearch | frontend/src/pages/Search.tsx:120-147 | a blank query changes nothing. Otherwise the query is sent; success shows the response, failure leaves the results empty and the total as it was. Searching ends false |
| SearchPage.SearchView.StartViewItem | frontend/src/pages/Search.tsx:150-152 | before the call, the selected item is cleared and loading starts |
| SearchPage.SearchView.FinishViewItem | frontend/src/pages/Search.tsx:154-167 | success shows the item and opens the modal; failure leaves no item, keeps the modal as it was and shows an error toast; loading ends |
| SearchPage.SearchView.HandleViewItem | frontend/src/pages/Search.tsx:150-168 | the whole handler: the item is set and the modal opened only on success; the item stays empty on failure |
| SearchPage.SearchView.CloseItem | frontend/src/pages/Search.tsx:285 | closing the modal leaves it closed |
| Navbar.MobileStyle | frontend/src/components/Navbar.tsx:145-146 | a drawer button is "solid" and "primary" exactly when its route is active, and "ghost" and "gray" otherwise: the same test as the desktop bar |
| Navbar.AtMostOneHighlighted | frontend/src/components/Navbar.tsx:140-146 | the drawer agrees with the desktop bar: at most one of its buttons is highlighted, and on "/" none is |
| Navbar.ActiveRoutesNest | frontend/src/components/Navbar.tsx:69 | two routes active on one pathname are equal or nested at a "/" boundary |
| Navbar.FlatRoutesExclusive | frontend/src/components/Navbar.tsx:69 | two distinct one-segment routes are never active together |
| Navbar.AtMostOneActive | frontend/src/components/Navbar.tsx:43-48 | with the four listed routes at most one item is active, and "/" activates none |
| Navbar.PrefixIsNotEnough | frontend/src/components/Navbar.tsx:69 | "/filter/advanced" activates "/filter", while "/filtering" and "/" do not |
| ReviewRoutes.PendingOf | backend/app/routes/review.py:25-31 | the pending list is no longer than the store, and each entry is pending and equal to every given query parameter |
| ReviewRoutes.PendingOfSelects | backend/app/routes/review.py:25-31 | a review that matches occurs as often as in the store; one that does not match never occurs |
| ReviewRoutes.PendingOfConcat | backend/app/routes/review.py:25-31 | the pending list keeps store order: the list for a concatenation is the lists of its parts, one after the other, and a single review is listed exactly when it matches |
| ReviewRoutes.Decide | backend/app/routes/review.py:67-70 | a decision sets the status from `approved`, the review time, the reviewer and the notes; id, content and analysis are kept |
| ReviewRoutes.RedecisionOverwrites | backend/app/routes/review.py:67-70 | prior status is never checked, so deciding twice is the same as the second decision alone |
| ReviewRoutes.DecidedNotPending | backend/app/routes/review.py:25-31 | a decided review never appears in the pending list, whatever the filters |
| ReviewRoutes.DecideAll | backend/app/routes/review.py:87-97 | the store keeps its keys; every requested id that is stored is decided, and every other review is unchanged |
| ReviewRoutes.FoundIds | backend/app/routes/review.py:87-89 | no more ids than requested, each of them stored and requested |
| ReviewRoutes.FoundIdsSelects | backend/app/routes/review.py:87-89 | a stored id is found exactly as often as it is requested; an unknown id is never found |
| ReviewRoutes.FoundIdsConcat | backend/app/routes/review.py:87-89 | the found ids keep request order: those of a concatenation are those of its parts, one after the other |
| ReviewRoutes.BulkResult | backend/app/routes/review.py:85-100 | one decided review per found id, in request order |
| ReviewRoutes.BulkResultConcat | backend/app/routes/review.py:85-100 | the result for a concatenation of id lists is the results for its parts, one after the other; one id gives its decided review when stored and nothing otherwise |
| ReviewRoutes.BulkSkipsAndRepeats | backend/app/routes/review.py:87-98 | an unknown id is skipped silently, and a repeated stored id yields its decided review twice |
| ReviewRoutes.ReviewStore.constructor | backend/app/routes/review.py:13 | the store holds the given reviews in the given insertion order |
| ReviewRoutes.ReviewStore.Values | backend/app/routes/review.py:26 | `values()`: the stored reviews in insertion order |
| ReviewRoutes.ReviewStore.PendingReviews | backend/app/routes/review.py:16-33 | the result holds exactly the stored reviews that are pending and match every given parameter, and it is PendingOf over the values in insertion order, so store order and multiplicity are those of PendingOfConcat and PendingOfSelects |
| ReviewRoutes.ReviewStore.GetReview | backend/app/routes/review.py:36-49 | a stored id gives its review; an unknown id gives 404 "Email review not found" |
| ReviewRoutes.ReviewStore.ApproveReview | backend/app/routes/review.py:52-75 | an unknown id gives 404 and changes nothing; otherwise exactly that review is replaced by its decision, which is returned |
| ReviewRoutes.ReviewStore.BulkApprove | backend/app/routes/review.py:78-100 | the store becomes every found id decided and the rest unchanged; the result is one decided review per found id, in request order |
| Audit.LogId | backend/app/services/audit.py:24 | the id is "log_" followed by the decimal number |
| Audit.LogIdInjective | backend/app/services/audit.py:24 | different numbers give different ids |
| Audit.LogIdsDistinct | backend/app/services/audit.py:23-33 | in a log whose entries got ids log_1, log_2, … the ids are pairwise distinct |
| Audit.LexLeTotal | backend/app/services/audit.py:63-70 | Python's string order, which the time filters and the sort use, is total |
| Audit.LexLeAntisymmetric | backend/app/services/audit.py:63-70 | the string order is antisymmetric |
| Audit.LexLeTransitive | backend/app/services/audit.py:63-70 | the string order is transitive |
| Audit.FilterLogs | backend/app/services/audit.py:52-67 | every returned entry matches every given filter; empty strings count as not given |
| Audit.FilterLogsSelects | backend/app/services/audit.py:52-67 | a matching entry is kept as often as it occurs, and a non-matching one never is |
| Audit.FilterLogsConcat | backend/app/services/audit.py:52-67 | the filter keeps log order: filtering a concatenation filters its parts, one after the other, and a single entry is kept exactly when it matches |
| Audit.WithTimestampFilterLogs | backend/app/services/audit.py:52-70 | filtering and picking the entries of one timestamp commute |
| Audit.Insert | backend/app/services/audit.py:70 | one insertion step adds exactly the entry: same multiset plus one |
| Audit.InsertSorted | backend/app/services/audit.py:70 | inserting into a newest-first list keeps it newest first |
| Audit.InsertStable | backend/app/services/audit.py:70 | insertion keeps entries with equal timestamps in their original relative order |
| Audit.SortNewestFirst | backend/app/services/audit.py:70 | the sort is a permutation of its input |
| Audit.SortNewestFirstSorted | backend/app/services/audit.py:70 | the sort's output is in descending timestamp order |
| Audit.SortNewestFirstStable | backend/app/services/audit.py:70 | entries with equal timestamps keep their input order, as Python's stable `sorted` with `reverse=True` does |
| Audit.PySliceTo | backend/app/services/audit.py:71 | `s[:limit]`: a prefix of length min(limit, n), or n + limit (at least 0) for a negative limit |
| Audit.SliceKeepsNewest | backend/app/services/audit.py:70-71 | every entry that the slice drops is no newer than every entry it keeps |
| Audit.QueryLogs | backend/app/services/audit.py:49-73 | a non-negative limit bounds the number of results |
| Audit.QueryLogsStable | backend/app/services/audit.py:49-73 | for every timestamp, the returned entries with that timestamp are a prefix of the matching entries with that timestamp in log order (the sort is stable) |
| Audit.QueryLogsCorrect | backend/app/services/audit.py:49-73 | only matching stored entries are returned, newest first; a limit no smaller than the number of matching entries returns every one of them; no matching entry left out is newer than one returned; entries with one timestamp keep log order |
| Audit.AuditLog.constructor | backend/app/services/audit.py:5 | the log starts empty |
| Audit.AuditLog.LogAction | backend/app/services/audit.py:8-35 | exactly one entry is appended, with id log_(n+1), the given fields and details defaulting to {}; it is returned |
| Audit.AuditLog.GetLogs | backend/app/services/audit.py:38-73 | a caller that omits `limit` passes `DefaultLogLimit`, 100; only stored entries that match are returned, newest first and at most `limit` of them; every matching entry when the limit allows; none left out is newer than one returned; entries with one timestamp keep log order; the log is only read |
| DbSession.Lookup | backend/app/db/session.py:50 | `item.get(key)`: the stored value, or null when the key is absent |
| DbSession.FirstMatch | backend/app/db/session.py:49-51 | the index of the first item whose "id" equals the given id, or none exactly when no item matches |
| DbSession.FirstMatchAppend | backend/app/db/session.py:38-52 | ids need not be unique: appending an item never changes an existing first match |
| DbSession.KeepWhere | backend/app/db/session.py:64 | one comprehension pass: each kept item is from the list and has the given value under the key |
| DbSession.KeepWhereConcat | backend/app/db/session.py:64 | one pass keeps list order: the pass over a concatenation is the passes over its parts, one after the other |
| DbSession.Select | backend/app/db/session.py:62-66 | every selected item matches every filter |
| DbSession.SelectConcat | backend/app/db/session.py:62-66 | the selection keeps collection order: selecting from a concatenation selects from its parts, one after the other, and a single item is kept exactly when it matches every filter |
| DbSession.SelectCount | backend/app/db/session.py:62-66 | a matching item is kept as often as it occurs, and a non-matching one never is |
| DbSession.KeepWhereSelect | backend/app/db/session.py:63-64 | one more filter pass is the selection with that filter appended |
| DbSession.SelectNoFilters | backend/app/db/session.py:59-60 | no filters select the whole collection |
| DbSession.RemoveAt | backend/app/db/session.py:87 | `del items[i]`: one shorter, with the items before and after i kept in order |
| DbSession.DeleteRemovesOne | backend/app/db/session.py:80-90 | deleting removes the first match only, and later duplicates survive |
| DbSession.DummyDB.constructor | backend/app/db/session.py:35-36 | the database starts with no collections |
| DbSession.DummyDB.Add | backend/app/db/session.py:38-43 | the item is appended to its collection, which is created if absent; other collections are unchanged; the item is returned |
| DbSession.DummyDB.Get | backend/app/db/session.py:45-52 | the first item with that id, or none when the collection is absent or nothing matches |
| DbSession.DummyDB.List | backend/app/db/session.py:54-66 | a missing collection gives []; no filters give the whole collection; filters give the in-order items that match all of them |
| DbSession.DummyDB.Update | backend/app/db/session.py:68-78 | the updates are merged into the first match only, which is returned; with no match it returns none and nothing changes |
| DbSession.DummyDB.Delete | backend/app/db/session.py:80-90 | the first match is removed, the collection shrinks by one and true is returned; otherwise false and nothing changes |
| Outlook.FilterParts | backend/app/services/outlook.py:50-59 | clauses come in the order start, end, sender; each is present exactly when its value is given; the sender is quoted verbatim |
| Outlook.PreviewQuery | backend/app/services/outlook.py:49-80 | the folder path is "/" + id for a non-empty id, else ""; $top, $select and $orderby always come first with fixed values |
| Outlook.PreviewParams | backend/app/services/outlook.py:70-80 | $filter and $search are read from their own optional entries after the fixed ones |
| Outlook.FilterParam | backend/app/services/outlook.py:76-77 | $filter is sent exactly when a clause exists, as the clauses joined by " and " |
| Outlook.SearchParam | backend/app/services/outlook.py:62-80 | $search is sent exactly when the keywords joined by " OR " are non-empty, wrapped in double quotes |
| Outlook.PartyName | backend/app/services/outlook.py:103 | the sender name when the party, its address object and the name are all present, the default otherwise |
| Outlook.PartyAddress | backend/app/services/outlook.py:155 | the address when the party, its address object and the address are all present, the default otherwise |
| Outlook.MapPreview | backend/app/services/outlook.py:99-105 | a preview exists exactly when id and date are present; the defaults are "(No subject)", "Unknown" (PartyName) and "" |
| Outlook.PreviewsOf | backend/app/services/outlook.py:97-108 | all messages map in order, or the whole mapping fails when any one does |
| Outlook.MapPreviews | backend/app/services/outlook.py:97-108 | the loop computes PreviewsOf |
| Outlook.MapAttachment | backend/app/services/outlook.py:138-145 | an attachment record needs id, name and content type; size defaults to 0 and there is no content |
| Outlook.FileAttachmentsOf | backend/app/services/outlook.py:134-146 | only file attachments are kept, and the mapping fails exactly when one of them cannot be mapped |
| Outlook.FileAttachmentsOnly | backend/app/services/outlook.py:137 | an attachment that is not a file attachment is dropped; a file attachment is kept |
| Outlook.FileAttachmentsOfConcat | backend/app/services/outlook.py:134-146 | attachments are taken in order: the records of a concatenation are those of its parts, one after the other, and it fails exactly when a part fails; with FileAttachmentsOnly this fixes the result of every list |
| Outlook.CollectAttachments | backend/app/services/outlook.py:134-146 | the loop computes FileAttachmentsOf |
| Outlook.Addresses | backend/app/services/outlook.py:155-162 | one address per recipient, in order, "" when missing |
| Outlook.MapContent | backend/app/services/outlook.py:149-170 | content exists exactly when id, internet message id and date are present and the attachments map; subject, sender, sender address, recipients, cc and body with their defaults; is_html holds exactly for an "html" body, importance defaults to "normal", the folder name is always "", and only file attachments are kept |
| Parser.KindOf | backend/app/services/parser.py:26-44 | PDF, DOCX and the two Excel types match by equality, any "text/" type by prefix, and everything else is unsupported |
| Parser.ParsePdf | backend/app/services/parser.py:51-63 | the extracted text, or "[Error parsing PDF: m]" |
| Parser.ParseDocx | backend/app/services/parser.py:66-81 | the paragraphs joined by newlines, or "[Error parsing DOCX: m]" |
| Parser.DocxParagraphLines | backend/app/services/parser.py:76 | splitting the text at newlines gives back the paragraphs, when none holds a newline |
| Parser.CellTexts | backend/app/services/parser.py:101 | an empty cell renders as "" and every other cell as its text |
| Parser.KeptRows | backend/app/services/parser.py:100-103 | the kept row texts are never blank |
| Parser.SheetLines | backend/app/services/parser.py:96-105 | a sheet gives "Sheet: name", then its kept rows, then "" |
| Parser.ExcelLines | backend/app/services/parser.py:95-107 | at least two lines per sheet, and none exactly when there are no sheets |
| Parser.ParseExcel | backend/app/services/parser.py:84-111 | the sheets' lines joined by newlines, or "[Error parsing Excel: m]" |
| Parser.CollectLines | backend/app/services/parser.py:94-106 | the nested loops compute ExcelLines |
| Parser.AppendRows | backend/app/services/parser.py:100-103 | the row loop appends exactly the kept rows |
| Parser.RowWithSeparatorKept | backend/app/services/parser.py:101-103 | a row of two or more cells is never dropped; a shorter row is dropped exactly when it is empty or its cell is blank |
| Parser.WideRowsAllKept | backend/app/services/parser.py:100-103 | when every row has two or more cells, every row is kept, in order |
| Parser.ExcelTextLines | backend/app/services/parser.py:107 | no sheets give ""; otherwise splitting the text at newlines gives back the lines, when no cell holds a newline |
| Parser.ParseAttachment | backend/app/services/parser.py:15-48 | a failed decoding gives "[Error parsing attachment: m]"; otherwise the kind picks the reader, and an unsupported type gives "[Unsupported file type: X]" |
| Parser.TextSubtypesReadAsText | backend/app/services/parser.py:38-40 | every "text/" subtype is read as text |
| Parser.BareTextUnsupported | backend/app/services/parser.py:38-44 | "text" without the slash is unsupported |
| Llm.AttachmentText | backend/app/services/llm.py:30-31 | an attachment adds text exactly when its content is present and non-empty |
| Llm.ContentToAnalyze | backend/app/services/llm.py:18-31 | the header lines, then the attachment section |
| Llm.AppendAttachments | backend/app/services/llm.py:29-31 | the loop appends the attachments' texts in list order |
| Llm.SectionOnlyWithAttachments | backend/app/services/llm.py:27-28 | the "Attachments:" heading is present exactly when the list is non-empty, even when no attachment has content |
| Llm.AttachmentTextsConcat | backend/app/services/llm.py:29-31 | attachments contribute independently, in list order |
| Llm.ContentlessSkipped | backend/app/services/llm.py:30 | an attachment without content adds nothing, wherever it stands |
| Llm.ParsePIIList | backend/app/services/llm.py:86 | a PII list validates exactly when every name is a PII type, and keeps the names in order |
| Llm.DefaultAction | backend/app/services/llm.py:87 | "exclude" exactly when is_private is given as true, and "store" otherwise |
| Llm.AnalysisOf | backend/app/services/llm.py:81-90 | the analysis exists exactly when the sensitivity, department and PII values, after their defaults, are valid |
| Llm.Analyze | backend/app/services/llm.py:65-106 | the answer's analysis, or the fixed fallback when the call, the decoding or the validation fails |
| Llm.MissingFieldsDefault | backend/app/services/llm.py:81-90 | an empty answer gives low, general, no tags, not private, no PII, "store", "" and no key points |
| Llm.GivenFieldsKept | backend/app/services/llm.py:81-90 | every given field is kept; a missing recommendation follows privacy |
| Llm.FailureIsPrivate | backend/app/services/llm.py:94-106 | any failure gives a private, excluded analysis; a non-private analysis comes only from a valid answer |
| Llm.InvalidEnumFallsBack | backend/app/services/llm.py:81-83 | an unknown sensitivity sends the whole answer to the fallback |
| Wrappers.Trim | frontend/src/pages/FilterSetup.tsx:93 | `trim()`: a slice between blank ends, starting and ending on non-blank characters, empty exactly for a blank string |
| Wrappers.RemoveAll | frontend/src/pages/FilterSetup.tsx:106 | `filter(k => k !== x)`: exactly the other elements remain, and duplicate-freedom is kept |
| Wrappers.SplitJoin | backend/app/services/parser.py:76 | splitting a newline join gives back its parts, when no part holds the separator |
| Wrappers.JoinEmpty | backend/app/services/outlook.py:64 | a join is empty exactly when there are no parts or one empty part |
| Wrappers.NatToStringRoundTrip | backend/app/services/audit.py:24 | decimal rendering reads back as the same number |

## Left out

- The JSX markup, Chakra styling, and the mock data generators that stand in for backend calls. Each handler receives the call's outcome as `Ui.Outcome` instead.
- Typing the approval notes and closing the review drawer: these are bare state setters in the markup and are not modelled as methods. The fields are set directly.
- Loading the folder list in the filter view (`loadFolders`): it only fills a drop-down.
- React's batching of state updates and the asynchrony of handlers. Each handler is one sequential step. The review view's filter effect runs explicitly after every change of reviews or filters.
- HTTP, OAuth and the Graph/OpenAI clients. Their JSON answers, or their failure, are inputs. The prompt texts are not modelled, because they only go to the model.
- Date parsing and formatting (`isoformat`, `fromisoformat`, `datetime.now`). Timestamps are strings passed in, and Python compares them as strings, as the audit log does.
- `settings.MAX_PREVIEW_EMAILS` is not defined in backend/app/config.py. The `$top` value is a parameter `maxPreviews`.
- Whitespace is ASCII only. JavaScript's `trim` removes tab, line feed, vertical tab, form feed, carriage return and space (`Wrappers.IsWhitespace`); Python's `strip` also removes U+001C to U+001F (`Wrappers.IsPyWhitespace`, used for the spreadsheet rows). Both also remove Unicode spaces such as U+00A0, which the model does not.
- JSON values of the wrong type: a JSON field is either absent or present with the expected type. Audit `details` are a map from string to string. DummyDB items are maps to a small `Value` datatype, not arbitrary JSON.
- Library internals (base64, pdfminer, python-docx, openpyxl). What each library reads is an input: its value, or the message of the exception it raised. A workbook is read whole or raises, so the text of a half-read workbook is not modelled.
- Floating-point search scores are carried but only displayed.
- The frontend API wrappers in frontend/src/api are not part of this model. Their endpoint paths do not match the backend routes.
- Aliasing of Python review objects: `approve_review` mutates the object it also returns. The model works on values, so the returned review and the stored one are equal copies.
- EmailReviewPage.DecideListed: the model stamps every decided entry with one `now` per call. EmailReview.tsx:214 and 271 call `new Date().toISOString()` once per entry inside `prev.map`, so entries decided in one update may get different `reviewed_at` values. The same holds for `EmailReviewPage.EmailReviewView.HandleReviewDecision` and `EmailReviewPage.EmailReviewView.HandleBulkDecision`.
- ReviewRoutes.ReviewStore.BulkApprove: `bulk_approve` calls `datetime.now()` once per review, while the model uses one `now` for the whole call.
- ReviewRoutes.ReviewStore.constructor: nothing in the repository inserts into `email_reviews`, so the store starts with the contents it is given.
- Audit.QueryLogs: its own contract states only the limit bound. The full correctness statement is the lemma `Audit.QueryLogsCorrect`.
- DbSession.DummyDB.Add: the model stores the item by value. In Python the stored dict is the caller's object, so later changes through either reference show in both.
- DbSession.DummyDB.List: without filters Python returns the stored list itself, so a caller that changes it changes the collection. The model returns a copy.
- DbSession.DummyDB.Update: the model replaces the matching item with its merged value. In Python `dict.update` mutates the shared item, which the caller of `add` and any earlier `get` or `list` result also see.
- DbSession.FirstMatch: ids and filter values are compared with equality on `Value`, so `Num(1)` never equals `Bool(true)`. Python's `==` in session.py:50, 64, 74 and 86 treats `1 == True` and `0 == False` as equal, and so an item whose id is `True` is found by id `1`. The same holds for `DbSession.KeepWhere`.
- `settings.LLM_MODEL` is not defined in backend/app/config.py, so as written every analysis raises inside the `try` and returns the fallback. `Llm.Analyze` takes the model's reply as an input, so it covers both that failure and a configured model.
