# mind_your_biz client logic, modelled in Dafny

mind_your_biz is a React front end for managing companies. A company has
local units, departments, HR, properties, vehicles, equipment, timetables,
documents and sensor "pods". This project models the parts of the client
that hold logic of their own, apart from rendering and the network:

- **Attachment list** (`FileContainer`). It holds the documents of a record:
  - it sorts them in place by name, date or size;
  - it keeps a single selected document, in grid and in row view;
  - it switches view;
  - it buffers a file chosen for upload, with its name and description.
- **File card and icon** (`FileCard`, `getFileIcon`). A card shows a
  caption, truncated unless the card is selected, and an icon chosen from
  the MIME major type.
- **Department services** (`departments.services`). Each service sends one
  request and maps the HTTP reply to its result through a one-status rule.
  `getAllHR` rewrites the fetched assignment list in place with the HR
  records it names.
- **Department details page** (`DepartmentDetails.page`). It computes:
  - the "add HR" options and their labels;
  - the HR grid rows and when a row's delete button is enabled;
  - the edit payload;
  - the refresh sequence: department, assignments, equipment, then local unit.
- **Page frame and drawer** (`PageFrame`, `DrawerItems`). The frame reads
  the section from the URL and highlights the matching drawer entry. It
  navigates between sections and keeps the drawer, nested-list and theme
  toggles.
- **Sensor tables** (`Pods.page`). Its loops build the grid rows and
  columns of each sensor's readings.

One Dafny module models each source file. Three shared modules model the
JavaScript operations that these files rely on:

- `Strings`: `split`/`join` on one separator, and the decimal text of an integer;
- `JsValues`: JSON-like records, `undefined` for an absent property, and `String()` of a value;
- `Wrappers`: `Option`.

JavaScript semantics are written out where they matter:

- reading a property that a record lacks yields `undefined`;
- a template literal writes `undefined` or `null` as text;
- `indexOf` returns -1 when the value is absent;
- `Boolean(title)` is false for an empty string;
- a toggle group reports `null` when its active button is clicked again.

React state is modelled as fields of a class whose handler methods assign
them. An async handler is split at its first `await`. Its synchronous part
(for example, setting `loading`) is one method. The continuation, given the
outcome of the promise, is another. A third method composes the two.

Some behaviours of the code worth stating plainly:

- A card captioned "invoice.pdf" shows "invoice..." (seven characters and
  three dots) when not selected.
- Every call of the sort handler clears the selection, including the call
  with a `null` value that changes nothing else.
- A service whose reply is delivered with a status other than the accepted
  one resolves to an empty list, `{}`, or an empty response object, never
  to `undefined`. Which statuses the HTTP client delivers rather than
  rejects is its own configuration, which is not part of this model; under
  the client's default status check only 2xx replies are delivered.

## Model

| member | source | states |
|---|---|---|
| FileContainer.KeyOf | src/Components/Files/FileContainer/FileContainer.tsx:195-206 | 'date' orders by creation time and 'size' by file size; 'name' and every unrecognised value order by name (both directions) |
| FileContainer.PrecedesTotal | src/Components/Files/FileContainer/FileContainer.tsx:196-206 | under a total collation, any two documents are comparable by each of the three comparators |
| FileContainer.PrecedesTransitive | src/Components/Files/FileContainer/FileContainer.tsx:196-206 | each comparator is transitive, so the sorted orders are well defined |
| FileContainer.SortInPlace | src/Components/Files/FileContainer/FileContainer.tsx:197-206 | the array ends sorted by the chosen key: name in collation order, or creation time or size non-decreasing; it is a permutation of the input (same multiset); an already-sorted array is left as it was |
| FileContainer.IndexOf | src/Components/Files/FileContainer/FileContainer.tsx:390 | the first position holding the value, or -1 exactly when no position holds it |
| FileContainer.CardToggleLaws | src/Components/Files/FileContainer/FileContainer.tsx:212-217 | clicking the selected card deselects it; clicking another card selects that one; clicking the same card twice restores the previous selection when nothing or that same card was selected (from another card's selection it ends with nothing selected) |
| FileContainer.RowToggle | src/Components/Files/FileContainer/FileContainer.tsx:389-392 | a selected row is a valid position and selects the document there; a valid row other than the current one selects its document; an empty selection model selects nothing |
| FileContainer.RowToggleIsCardToggle | src/Components/Files/FileContainer/FileContainer.tsx:389-391 | with distinct documents, choosing row k has the same effect as clicking the card of the document at position k |
| FileContainer.AtMostOneCardShownSelected | src/Components/Files/FileContainer/FileContainer.tsx:377 | with distinct document ids, at most one card is drawn as selected |
| FileContainer.GetRows | src/Components/Files/FileContainer/FileContainer.tsx:219-228 | one row per document, in list order, each row's id being its position |
| FileContainer.ChosenRowSelectsItsDocument | src/Components/Files/FileContainer/FileContainer.tsx:219-228 | choosing a row by its id (with nothing selected) selects the very document that row displays |
| FileContainer.FileContainer.constructor | src/Components/Files/FileContainer/FileContainer.tsx:96-112 | initial state: grid view, no selection, empty upload buffer and closed dialogs; the mount effect sorts the incoming array by name in place and renders it |
| FileContainer.FileContainer.HandleSort | src/Components/Files/FileContainer/FileContainer.tsx:192-210 | always clears the selection; `null` leaves the array, rendered list and sort key unchanged; any other value sorts the incoming array in place (same multiset) by that value's key, renders it and records the value; a list already sorted by that key is left exactly as it was, so sorting twice by the same key gives the order of the first sort; the view, buffer and dialogs are untouched |
| FileContainer.FileContainer.ReceiveFiles | src/Components/Files/FileContainer/FileContainer.tsx:114-116 | a new `files` array from the parent is rendered as given, unsorted; only the array and the rendered list change, so the sort key, view, selection, buffer and dialogs stay as they were |
| FileContainer.FileContainer.HandleSelection | src/Components/Files/FileContainer/FileContainer.tsx:212-217 | the new selection is the card toggle of the old one: the same file deselects, any other file replaces it |
| FileContainer.FileContainer.HandleRowSelection | src/Components/Files/FileContainer/FileContainer.tsx:389-392 | the new selection is the row toggle over the rendered list, computed from the selection before the event |
| FileContainer.FileContainer.HandleView | src/Components/Files/FileContainer/FileContainer.tsx:186-190 | a non-null view replaces the current one; `null` keeps it |
| FileContainer.FileContainer.HandleAddClick | src/Components/Files/FileContainer/FileContainer.tsx:278 | opens the upload dialog |
| FileContainer.FileContainer.HandleRenameClick | src/Components/Files/FileContainer/FileContainer.tsx:331-335 | with a document selected, the form takes its name and description and the update dialog opens; with none selected, the click throws before any state changes |
| FileContainer.FileContainer.HandleFileBuffer | src/Components/Files/FileContainer/FileContainer.tsx:126-129 | buffers every chosen file; the upload name becomes the first file's name; an empty choice throws after the buffer was set and leaves the name |
| FileContainer.FileContainer.HandleDeleteBuffer | src/Components/Files/FileContainer/FileContainer.tsx:156-160 | empties the buffered files, the name and the description |
| FileContainer.FileContainer.HandleClose | src/Components/Files/FileContainer/FileContainer.tsx:118-124 | closes both dialogs and empties the buffer, name and description |
| FileCard.CaptionSource | src/Components/Files/FileCard/FileCard.tsx:89-99 | the caption is drawn from the title when it is truthy (present and non-empty), otherwise from the file's name |
| FileCard.Caption | src/Components/Files/FileCard/FileCard.tsx:89-100 | a source shorter than 10 characters, or any source on a selected card, is shown whole; otherwise its first 7 characters followed by "..." |
| FileCard.CaptionLength | src/Components/Files/FileCard/FileCard.tsx:90-99 | an unselected caption is at most 10 characters long, and no caption is longer than its source |
| FileCard.CaptionKeepsPrefix | src/Components/Files/FileCard/FileCard.tsx:94-99 | every caption starts with the first 7 characters of its source |
| FileCard.InvoiceCaption | src/Components/Files/FileCard/FileCard.tsx:95-99 | "invoice.pdf" is shown as "invoice..." unselected and whole when selected |
| FileCard.MajorType | src/Components/Files/FileCard/FileCard.tsx:74 | the major type is the prefix of the MIME type up to, not including, its first '/' (the whole text when it has none) |
| FileCard.MajorTypeOfMime | src/Components/Files/FileCard/FileCard.tsx:74 | the major type of "type/subtype" is "type" whatever the subtype |
| FileCard.CardIcon | src/Components/Files/FileCard/FileCard.tsx:72-75 | an uploading card shows the progress indicator and no icon; otherwise the large primary icon of the file's major type |
| FileCard.UploadingCardIsInert | src/Components/Files/FileCard/FileCard.tsx:66-74 | an uploading card is disabled whatever `disabled` says and shows no icon; a card neither disabled nor uploading accepts clicks |
| FileIcon.GetFileIcon | src/utils/getFileIcon.tsx:13-31 | total; the color is always "primary"; the size is the one requested, "medium" by default; `null`/`undefined` and unlisted types get the document icon, each listed type another icon |
| FileIcon.ApplicationSharesDefault | src/utils/getFileIcon.tsx:15-30 | 'application', `null`/`undefined` and every unlisted type share the same document icon |
| FileIcon.ListedTypesDistinct | src/utils/getFileIcon.tsx:17-28 | image, video, audio, text, message and multipart each get their own icon |
| DrawerItems.DrawerElementsNumbered | src/Components/DrawerItems/DrawerItems.tsx:13-23 | exactly nine entries, numbered 1 to 9 in order |
| DrawerItems.DrawerElementsDistinct | src/Components/DrawerItems/DrawerItems.tsx:14-22 | no two entries share a path or a label |
| DrawerItems.DrawerPathsRouted | src/Components/DrawerItems/DrawerItems.tsx:14-22 | every entry's path is one path segment and a child route declared under `/app/companies/:companyId` (src/Routes/Routes.tsx, lines 71-106) |
| PageFrame.PagePath | src/Components/PageFrame/PageFrame.tsx:85 | the page path is segment 4 of the pathname split on '/', present exactly when there are more than four segments, and free of '/' |
| PageFrame.IsCompanyBasePathNeverHolds | src/Components/PageFrame/PageFrame.tsx:86 | the Company-entry test as written is false for every pathname |
| PageFrame.AtMostOneItemSelected | src/Components/PageFrame/PageFrame.tsx:170-173 | an entry is highlighted iff its path equals the page path, so no URL highlights two entries |
| PageFrame.NavigateThenParse | src/Components/PageFrame/PageFrame.tsx:88-89 | parsing the URL that section navigation produced yields that section's path, for any company id and path that are single segments |
| PageFrame.SelectionAfterNavigation | src/Components/PageFrame/PageFrame.tsx:170-173 | after choosing drawer entry k, entry j is highlighted iff j = k |
| PageFrame.CompanyUrlHighlightsNothing | src/Components/PageFrame/PageFrame.tsx:151-152 | on the company's own page the as-written test fails although the intended test holds, and no section entry is highlighted |
| PageFrame.AtCompanyBaseOnlyAtHome | src/Components/PageFrame/PageFrame.tsx:86 | the corrected test holds on the company's page and on no section page |
| PageFrame.NextMode | src/Components/PageFrame/PageFrame.tsx:105-112 | 'light' becomes 'dark'; every other mode becomes 'light' (both directions) |
| PageFrame.NextModeTwice | src/Components/PageFrame/PageFrame.tsx:105-112 | switching twice restores the mode exactly when it was 'light' or 'dark' |
| PageFrame.PageFrame.constructor | src/Components/PageFrame/PageFrame.tsx:79-84 | the drawer starts open exactly on large screens; the nested list starts expanded |
| PageFrame.PageFrame.HandlePageSelection | src/Components/PageFrame/PageFrame.tsx:88-91 | navigates to `/app/companies/{id}/{path}` and closes the drawer; the new URL's page path is the chosen path |
| PageFrame.PageFrame.HandleCompanyClick | src/Components/PageFrame/PageFrame.tsx:151 | navigates to `/app/companies/{id}`, whose page path is undefined and where the corrected Company-entry test holds |
| PageFrame.PageFrame.HandleDrawerToggle | src/Components/PageFrame/PageFrame.tsx:93-95 | negates `open`, so two toggles restore it |
| PageFrame.PageFrame.HandleDrawerOpen | src/Components/PageFrame/PageFrame.tsx:97-99 | the drawer is open afterwards |
| PageFrame.PageFrame.HandleDrawerClose | src/Components/PageFrame/PageFrame.tsx:101-103 | the drawer is closed afterwards |
| PageFrame.PageFrame.HandleThemeSwitch | src/Components/PageFrame/PageFrame.tsx:105-113 | the mode becomes the next mode and the stored theme record holds the new mode with the unchanged palette |
| PageFrame.PageFrame.HandleNestedListToggle | src/Components/PageFrame/PageFrame.tsx:114-123 | with the drawer open, flips the nested list; with it closed, opens the drawer and expands the list (the only button that calls it, at lines 187-223, is commented out, so the handler is unreachable in the rendered page) |
| DepartmentsServices.AcceptedStatus | src/services/departments.services.ts:77 | `createDepartment` accepts only 201; every other service only 200 |
| DepartmentsServices.EmptyDefault | src/services/departments.services.ts:35-182 | each service's local starting value (lines 35, 52, 69, 87, 104, 121, 148, 165, 182): list services start from `[]`, services returning a response from the empty response object, the others from `{}` |
| DepartmentsServices.RequestOf | src/services/departments.services.ts:34-196 | every request carries `Authorization: Bearer <token>`; reads use GET, creation POST to `/departments`, update and `addHR` PUT, removals DELETE; exactly POST and PUT carry a body, `addHR` the dates; the update carries the department; each request's path: `/companies/{id}/departments` for the list, `/departments` for creation, `/departments/{id}` for the read, update and delete, and the HR list, assignment and equipment paths below `/departments/{id}` |
| DepartmentsServices.AssignmentPathSegments | src/services/departments.services.ts:150 | the assignment path splits into "departments", the department id, "hr" and the HR id, so both ids reach the server intact |
| DepartmentsServices.Settle | src/services/departments.services.ts:42-48 | a rejected request rejects the service; a delivered reply never does: with the accepted status it yields the body (or the response), otherwise the empty default |
| DepartmentsServices.ListErrorLooksEmpty | src/services/departments.services.ts:42-48 | a list service's reply delivered with any status other than 200 (under the client's default status check, another 2xx) resolves exactly as a 200 with an empty list |
| DepartmentsServices.CreateRejectsOk | src/services/departments.services.ts:76-81 | `createDepartment` answered with 200 resolves to `{}` |
| DepartmentsServices.Merge | src/services/departments.services.ts:137-142 | the merged entry has the HR record's properties plus `hrDepartmentId`, `startDate` and `endDate` from the join record, which override same-named HR properties |
| DepartmentsServices.IndexOf | src/services/departments.services.ts:137 | the first slot holding that very object, or -1 exactly when none does |
| DepartmentsServices.ParseArray | src/services/departments.services.ts:128-133 | the parsed body is a new array of new objects, one per element, in order |
| DepartmentsServices.GetAllHRMerged | src/services/departments.services.ts:120-145 | rejected request: rejects; non-200: `[]`; 200 with an array: resolves iff every HR fetch resolves, to one merged entry per join record in the same order, entry i being the merge of the HR record fetched by join record i's `hrId` with that join record |
| DepartmentsServices.MergeInPlace | src/services/departments.services.ts:135-143 | the loop succeeds iff every join record's HR fetch resolves, and then slot i holds the merge of the HR record fetched by join record i's `hrId` with join record i |
| DepartmentDetails.AddHROptions | src/Routes/Private/Departments/DepartmentDetails.page.tsx:504 | a record is an option iff it is in the company's HR list and its id matches no assigned HR's id; the options keep the list's order (a subsequence) and each unassigned record appears exactly as often as in the list |
| DepartmentDetails.OptionLabel | src/Routes/Private/Departments/DepartmentDetails.page.tsx:505 | the label is the name, then a space and the surname, then " (" fiscal code ")", its length being the parts' lengths plus four |
| DepartmentDetails.LabelsTellFiscalCodesApart | src/Routes/Private/Departments/DepartmentDetails.page.tsx:505 | options whose fiscal codes differ (with equal length) have different labels |
| DepartmentDetails.HRRow | src/Routes/Private/Departments/DepartmentDetails.page.tsx:234-250 | a row has exactly the fifteen shown properties, each copied from the assignment (`undefined` when absent) |
| DepartmentDetails.HRsRows | src/Routes/Private/Departments/DepartmentDetails.page.tsx:233-251 | one row per assignment, in order, with `id`, `startDate` and `endDate` copied unchanged |
| DepartmentDetails.RowOfMergedAssignment | src/Routes/Private/Departments/DepartmentDetails.page.tsx:225 | for a merged assignment, deletion is enabled iff the join record's end date is null (absent disables it), and the row id is the HR record's own id |
| DepartmentDetails.RemoveRequest | src/Routes/Private/Departments/DepartmentDetails.page.tsx:201-226 | a removal is sent iff the button is enabled and the user confirms; it is a DELETE of the row's assignment path |
| DepartmentDetails.EditPayload | src/Routes/Private/Departments/DepartmentDetails.page.tsx:156-158 | the payload has exactly one property, the form's name |
| DepartmentDetails.SubmitEditRequest | src/Routes/Private/Departments/DepartmentDetails.page.tsx:153-159 | the edit is a PUT to the department's own path `/departments/{id}` whose body holds only the form's name |
| DepartmentDetails.DepartmentDetailsPage.constructor | src/Routes/Private/Departments/DepartmentDetails.page.tsx:53-66 | the page starts loading, with empty records and lists, no HR selected, start date today and a null end date |
| DepartmentDetails.DepartmentDetailsPage.BeginRefresh | src/Routes/Private/Departments/DepartmentDetails.page.tsx:128-131 | before fetching: loading is set, the time refreshed and the selected HR cleared |
| DepartmentDetails.DepartmentDetailsPage.FetchData | src/Routes/Private/Departments/DepartmentDetails.page.tsx:108-117 | requests go department, assignments, equipment, then the local unit named by the fetched department's `localUnitId`, each only after the previous resolved; the state is written only when all four resolved, and then holds exactly their values |
| DepartmentDetails.DepartmentDetailsPage.SettleRefresh | src/Routes/Private/Departments/DepartmentDetails.page.tsx:132-137 | loading is cleared on success and on failure; a failure raises one alert |
| DepartmentDetails.DepartmentDetailsPage.HandleRefresh | src/Routes/Private/Departments/DepartmentDetails.page.tsx:128-138 | after a refresh, loading is off and no HR selected; it succeeds exactly when the department, assignment, equipment and local-unit requests all resolve, the local unit being requested last with the department's `localUnitId`; on success the department, assignments, equipment and local unit are the fetched ones and no alert is raised; on failure all four are unchanged and one alert is raised |
| DepartmentDetails.DepartmentDetailsPage.LoadCompanyHR | src/Routes/Private/Departments/DepartmentDetails.page.tsx:119-122 | the option source becomes the company's HR list |
| DepartmentDetails.DepartmentDetailsPage.SelectHR | src/Routes/Private/Departments/DepartmentDetails.page.tsx:501-503 | the selected HR becomes the chosen value |
| DepartmentDetails.DepartmentDetailsPage.AddHRRequest | src/Routes/Private/Departments/DepartmentDetails.page.tsx:169-175 | a request is made iff an HR is selected: a PUT to that HR's assignment path with the start date and a null end date |
| PodsPage.BuildRow | src/Routes/Private/Pods/Pods.page.tsx:172-180 | the row has `id`, `n`, `time` and one property per key; keys other than "time" hold value, space, unit; `time` holds the formatted time; `id` = index and `n` = index + 1 unless a key overwrote them |
| PodsPage.GetRows | src/Routes/Private/Pods/Pods.page.tsx:169-183 | one row per reading, in reading order, row i built as above from reading i |
| PodsPage.GetColumns | src/Routes/Private/Pods/Pods.page.tsx:185-218 | 2 + number-of-keys columns: the fixed number column and time column (field, header, widths and alignment), then one per key in order with the key as field and header and an equal flex share; none editable |
| PodsPage.PodsPage.constructor | src/Routes/Private/Pods/Pods.page.tsx:129-131 | the page starts loading, at "00:00", with no graph |
| PodsPage.PodsPage.BeginRefresh | src/Routes/Private/Pods/Pods.page.tsx:221 | refresh sets loading |
| PodsPage.PodsPage.SettleFetch | src/Routes/Private/Pods/Pods.page.tsx:224-233 | loading ends either way; a graph is stored with its arrival time; a failure raises an alert and keeps the previous graph and time |
| PodsPage.PodsPage.HandleRefresh | src/Routes/Private/Pods/Pods.page.tsx:220-234 | after a refresh loading is off; on success the page holds the new graph and its time and raises no alert; on failure it keeps the previous graph and time and raises one alert |

## Findings

| source | as written | input that shows it | evidently intended | confidence | as-written member | corrected member |
|---|---|---|---|---|---|---|
| src/Components/PageFrame/PageFrame.tsx:86 | `isCompanyBasePath` requires segment 4 to equal 'companies' and also to be undefined, so it is always false and the Company entry is never highlighted | pathname "/app/companies/7" (the Company entry's own target) | highlight the Company entry when segment 2 is 'companies' and no section follows the id | medium, not executed | PageFrame.CompanyUrlHighlightsNothing | PageFrame.AtCompanyBaseOnlyAtHome |

## Left out

- HTTP, cookies and local storage are not modelled. A reply, a token and a service outcome are parameters, and the stored theme is a field.
- The HTTP client's configuration (`connectors/axios`) is not part of this model. A `Delivered` reply stands for whatever status the client resolves rather than rejects: 2xx under its default status check. Any other status is a `Rejected` reply.
- The service functions of other modules (`getHR`, `getLocalUnit`, `getAllHR` of the HR service) and the pod endpoint are parameters returning an outcome.
- React's batching and rendering are not modelled. A handler's assignments are applied in order, and the render-time selection is the state before the event.
- Handlers that await a promise are modelled as a synchronous part and a continuation. Interleavings of several pending requests are not modelled.
- Documents are compared by value, while the code compares object references (`selectedFile === file`, `renderedFiles.indexOf(selectedFile)`). The two agree only while the selection is an object of the list on screen and no document appears twice, which `Distinct` and the distinct-id lemmas assume.
- FileContainer.FileContainer.ReceiveFiles: the model does not capture a selection kept across a new `files` array. After an upload the parent refetches the list, which holds new objects, and the selection still holds the old object. In the code the card with that id stays drawn selected, and clicking it selects the new object instead of deselecting; no row is shown selected, and choosing that row selects it. In the model both a card click and a row choice deselect, and the row is shown selected.
- FileContainer.SortInPlace: `Array.sort` is modelled by an insertion sort. Only sortedness, permutation and preserved sorted input are proved, not stability or the engine's exact order among equal keys.
- `localeCompare` is modelled by an abstract total preorder on strings, so no locale's collation rules are modelled. Dates are their millisecond timestamps.
- The date formatters (`getFormattedTime`, `getUpdatedTime`) are uninterpreted parameters, and `humanFileSize` is left to display: a row keeps the byte count.
- `handleFileRename`, the update dialog's save action, has an empty body and is not modelled. The rename button that opens the dialog is modelled.
- The upload, download and delete flows of the attachment list are left out, as are the alert texts (an alert is counted, not rendered) and the dialogs' open flags on the department page.
- The info and delete dialogs, loading spinners and animations of the attachment list are left out.
- The continuations after add, remove, edit and delete on the department page are left out: each shows an alert, closes a dialog and refreshes.
- Column definitions and breadcrumbs of the department page are left out. They are constant presentation data.
- Pods reading values are uninterpreted text: their number-to-string conversion is not modelled.
- PodsPage.GetColumns: states the flex share `1 / keys.length` as an exact real, not as a floating-point number. With no keys there are no key columns, so the division by zero never matters.
- The date and month pickers, time-view filter and charts of the Pods page are left out. They do not affect the tables.
- String lengths count characters, not UTF-16 code units, so a caption with characters outside the Basic Multilingual Plane may truncate differently.
- PageFrame.PageFrame.HandleNestedListToggle: the scroll of the drawer element to its bottom is not modelled. The button that would call the handler is commented out in the page frame.
- FileCard.Caption: a card with neither a truthy title nor a file is not modelled. The optional chain makes its unselected caption the text "undefined..." and its selected caption empty; no caller renders such a card.
- Route wiring (`Routes.tsx`) is modelled only as the list of company child route paths.
