# Employee management app — a Dafny model of its core

The application is a small Next.js employee directory backed by MongoDB.
This project models its core in Dafny and proves properties of the model:

- **`/api/employee`**: GET lists the `NewEmployee` collection. POST joins an
  array course into one text, refuses an email that is already stored, and
  saves a new document. The collection is the state of the
  `EmployeeStore` class; POST is a method that appends to it.
- **The `NewEmployee` schema**: seven required fields, unique indexes on
  email and mobile, a status enum with default `Active`, and timestamps
  (`EmployeeSchema`). The save checks are exactly what keeps the
  collection's invariant (`SaveKeepsValid`). A required array only has to be
  present, so a body without a course is stored with an empty course list.
- **`/api/login`**: a lookup by user name, a plain-text password comparison,
  and two http-only cookies on success (`LoginRoute`).
- **The middleware**: redirects a request that has no token to `/login`, and
  a signed-in request for `/login` to `/`. The matcher limits it to `/`,
  `/login` and `/employee/...` (`Middleware`).
- **The add-employee form**: its zod schema, the course checkboxes, the file
  input, and the submit handler that uploads the image and builds the POST
  body (`AddEmployeePage`, with the form state in the `AddEmployeeForm`
  class). The second form page states the same rules, with the image check
  written differently (`NewPage`). Its file input hands the schema a file
  list rather than a File, so that page's schema refuses every submission.
- **The employee list page**: sorting by a column, the search box, and the
  status a row's action asks for (`EmployeeListPage`, with the page state in
  the `EmployeeListView` class).

Runtime string operations sit in `Text`: `join`, ASCII `toLowerCase`,
`includes`, and `localeCompare` read as lexicographic order.
`Array.prototype.filter` sits in `Sequences`.

The model treats these as parameters:

- The clock (`now`) and the generated ids (`nextId`).
- Database failures (`fails`, `saveFails`).
- The JWT signer (`sign`).
- The email-syntax check of the validation library (`isEmail`).
- The id the blob store returns for an upload (`upload`).

## Model

| member | source | states |
|---|---|---|
| EmployeeSchema.CastStatus | src/models/newEmployee.js:36-40 | A missing status becomes Active. A given status is accepted exactly when it is "Active" or "Deactive", and then it is stored under that name. |
| EmployeeSchema.NewDocument | src/models/newEmployee.js:3-43 | The built document keeps every given field. A course text becomes a one-element list and a missing course an empty list. The status is Active and both timestamps are the creation time. |
| EmployeeSchema.SaveKeepsValid | src/models/newEmployee.js:5-34 | Appending a document with a fresh id to a valid collection keeps it valid (all required fields present, emails, mobiles and ids distinct) if and only if the save checks accept it. |
| EmployeeSchema.RequiredPresent | src/models/newEmployee.js:5-34 | Every String field is non-empty; the course list only has to exist. Characterised by EmployeeSchema.SaveKeepsValid as part of the collection invariant. |
| EmployeeSchema.SaveAccepts | src/models/newEmployee.js:5-34 | The required fields are present and neither unique index holds the email or mobile. EmployeeSchema.SaveKeepsValid proves this is exactly what keeps a valid collection valid. |
| EmployeeRoute.CourseString | src/app/api/employee/route.js:31 | An array course becomes its items joined with ", ": an empty array gives the empty text, n items give their total length plus n-1 separators, one item gives that item, and when no item holds a comma, splitting the text at ", " gives the items back. A text course is kept, and a missing course stays missing. |
| EmployeeRoute.Draft | src/app/api/employee/route.js:40-48 | The document built from a body keeps every supplied field (name, email, mobile, designation, gender, image id), takes the generated id, is Active and stamped with the creation time. A text course is stored as a one-element list, a missing course as an empty list, and an array course as one text that splits back into the items. |
| EmployeeRoute.FindByEmail | src/app/api/employee/route.js:34 | A document is found if and only if the email is in use. What is found is the first stored document with that email. |
| EmployeeRoute.EmployeeStore.Get | src/app/api/employee/route.js:10-23 | A database failure gives the 500 error. Otherwise a non-empty collection is returned whole, and an empty one gives the "No employees found" message. A returned list is non-empty and satisfies the collection invariant. |
| EmployeeRoute.EmployeeStore.Post | src/app/api/employee/route.js:26-58 | An email in use gives "User already exists" and nothing changes. Otherwise the built document is appended and "Employee added successfully" is returned if and only if the schema's save checks pass and the database does not fail. In every other case the reply is "Failed to add employee" and the collection is unchanged. The collection invariant is kept. |
| EmployeeRoute.MobileClashFailsAtSave | src/app/api/employee/route.js:34-51 | A new email with a mobile number already stored passes the pre-insert check but is refused at save by the unique index. |
| EmployeeRoute.AbsentCourseStoredEmpty | src/app/api/employee/route.js:30-51 | A body with no course but every other field filled in and a new email and mobile passes the save checks, and the document is stored with an empty course list. |
| Middleware.Decide | src/middleware.js:3-19 | Redirects to /login if and only if the token is empty and the path is not /login. Redirects to / if and only if there is a token and the path is /login. Otherwise the request continues. A redirect never targets the requested path. |
| Middleware.Gate | src/middleware.js:21-23 | Paths outside the matcher always continue. A request is sent to /login if and only if the path is matched, the token is empty and the path is not /login. It is sent to / if and only if there is a token and the path is /login. Every other request continues: unmatched paths, signed-in requests for matched pages other than /login, and requests without a token for /login. |
| Middleware.Matched | src/middleware.js:21-23 | The paths the middleware runs on. Characterised by Middleware.MatchedPaths. |
| Middleware.MatchedPaths | src/middleware.js:21-23 | A path is matched if and only if it is /, /login, /employee, or /employee/ followed by anything. |
| Middleware.AbsentCookieIsEmptyCookie | src/middleware.js:5 | A missing token cookie and an empty one get the same decision. |
| Middleware.TokenContentIgnored | src/middleware.js:5-15 | Any two non-empty tokens get the same decision: the token is not verified. |
| Middleware.RedirectSettles | src/middleware.js:8-18 | Following a redirect with the same cookie reaches a page the gate lets through, so redirects never loop. |
| LoginRoute.FindUser | src/app/api/login/route.js:14 | A user is found if and only if some stored user has that name. What is found is the first such user. |
| LoginRoute.Login | src/app/api/login/route.js:7-52 | An unknown name gives "User not found". A wrong password for the first user of that name gives "Incorrect Password". Success happens if and only if the password matches. On success the reply carries the user's name, and sets http-only cookies "token" (the signed claims with a one-day lifetime) and "userName". |
| LoginRoute.LoginSucceedsIffCredentialsMatch | src/app/api/login/route.js:14-23 | When user names are unique, login succeeds if and only if some stored user has both the given name and the given password. |
| LoginRoute.ShadowedUserRefused | src/app/api/login/route.js:14-23 | When a later user shares a name with the first user of that name and has a different password, logging in with the later user's name and password gives "Incorrect Password". |
| AddEmployeePage.MatchesDigits | src/app/employee/addemployee/page.js:16 | The digits pattern holds if and only if the text is non-empty and every character is a digit. |
| AddEmployeePage.EveryCourseKnown | src/app/employee/addemployee/page.js:21 | Holds if and only if every selected course is one of MCA, BCA, BSC. |
| AddEmployeePage.Check | src/app/employee/addemployee/page.js:11-31 | A failing field check reports that field and nothing else. A passing check reports nothing. |
| AddEmployeePage.TextIssues | src/app/employee/addemployee/page.js:12-17 | Name, email and mobile are each reported if and only if their rule fails: the name is empty, the email is not an email, or the mobile is not at least 10 characters all of them digits. No other field is reported. |
| AddEmployeePage.ChoiceIssues | src/app/employee/addemployee/page.js:18-22 | Designation, gender and course are each reported if and only if the value is outside its enum. For course, the selection is empty or holds an unknown course. No other field is reported. |
| AddEmployeePage.ShapeIssues | src/app/employee/addemployee/page.js:12-22 | The six non-image fields are each reported if and only if their rule fails, and the image is never reported. |
| AddEmployeePage.ImageAccepted | src/app/employee/addemployee/page.js:23-30 | The image rule: a File or undefined, and a present file not empty. Characterised by AddEmployeePage.AcceptsExactly and NewPage.SameRulesAsAddEmployee: undefined or a File of positive size. |
| AddEmployeePage.Issues | src/app/employee/addemployee/page.js:11-31 | Every issue the schema reports. Characterised field by field by AddEmployeePage.ShapeIssues and AddEmployeePage.Check. |
| AddEmployeePage.Accepts | src/app/employee/addemployee/page.js:11-31 | The schema reports no issue. Characterised by AddEmployeePage.AcceptsExactly. |
| AddEmployeePage.AcceptsExactly | src/app/employee/addemployee/page.js:11-31 | The schema accepts a form if and only if every field is valid and the image is either absent or a File of positive size. |
| AddEmployeePage.ToggleCourse | src/app/employee/addemployee/page.js:188-195 | Checking appends the course. Unchecking removes every occurrence of it, keeps the count of every other course, and keeps their order. |
| AddEmployeePage.CheckThenUncheck | src/app/employee/addemployee/page.js:192-194 | Checking and then unchecking a course gives the same selection as unchecking it alone. |
| AddEmployeePage.UncheckUnselected | src/app/employee/addemployee/page.js:194 | Unchecking a course that is not selected changes nothing. |
| AddEmployeePage.BuildPayload | src/app/employee/addemployee/page.js:69-77 | The body carries the form's text fields, only the first selected course, and the image id. |
| AddEmployeePage.RequestBody | src/app/employee/addemployee/page.js:69-77 | The sent body as the POST handler reads it: the course as a text, a null image id as a missing one. Characterised by AddEmployeePage.SubmittedCourseIsFirstSelection and AddEmployeePage.SubmissionWithoutImageNeverStored. |
| AddEmployeePage.AddEmployeeForm.constructor | src/app/employee/addemployee/page.js:40-43 | The form starts with empty inputs, no course and no file. |
| AddEmployeePage.AddEmployeeForm.Fill | src/app/employee/addemployee/page.js:126-177 | The registered inputs take the given values, and the course and image are unchanged. |
| AddEmployeePage.AddEmployeeForm.OnCourseChange | src/app/employee/addemployee/page.js:188-195 | The selection becomes the toggled selection, and nothing else changes. |
| AddEmployeePage.AddEmployeeForm.HandleFileChange | src/app/employee/addemployee/page.js:47-50 | The image becomes the first chosen file, or undefined when none is chosen. Nothing else changes. |
| AddEmployeePage.AddEmployeeForm.Submit | src/app/employee/addemployee/page.js:52-95 | A form the schema refuses gives its issues. An accepted form with a file whose upload fails is not sent. Otherwise the body is sent with the first course, with the uploaded id when there is a file, and with a null image id exactly when there is no file. |
| AddEmployeePage.SubmittedCourseIsFirstSelection | src/app/employee/addemployee/page.js:75 | However many courses were ticked, the document the POST handler builds holds only the first. |
| AddEmployeePage.SubmissionWithoutImageNeverStored | src/app/employee/addemployee/page.js:56-77 | A submission without an image sends a null image id, which the schema's required image id always refuses. |
| NewPage.SameRulesAsAddEmployee | src/app/new/page.jsx:8-25 | The optional custom image check admits exactly the values the add-employee union-and-refine admits. So both schemas accept the same forms: those with all fields valid and no image or a non-empty File. |
| NewPage.ImageAccepted | src/app/new/page.jsx:20-24 | Absent, or a non-empty File. Characterised by NewPage.SameRulesAsAddEmployee. |
| NewPage.Issues | src/app/new/page.jsx:8-25 | Every issue this page's schema reports. Characterised by NewPage.SameRulesAsAddEmployee. |
| NewPage.Accepts | src/app/new/page.jsx:8-25 | The schema reports no issue. Characterised by NewPage.SameRulesAsAddEmployee and NewPage.FileListNeverAccepted. |
| NewPage.FileListNeverAccepted | src/app/new/page.jsx:20-24 | The registered file input gives the schema a file list, never a File, and then the schema refuses the form whatever the other fields hold. |
| EmployeeListPage.NextOrder | src/app/employee/page.js:86 | The direction becomes descending if and only if the same column is clicked while ascending. |
| EmployeeListPage.FieldLe | src/app/employee/page.js:94-106 | The comparator is at most zero in ascending order. Characterised by EmployeeListPage.MayPrecedeTotal and EmployeeListPage.MayPrecedeTransitive. |
| EmployeeListPage.MayPrecede | src/app/employee/page.js:94-106 | The comparator lets one row stay before another in the chosen direction. Characterised by EmployeeListPage.MayPrecedeTotal and EmployeeListPage.MayPrecedeTransitive. |
| EmployeeListPage.MayPrecedeTotal | src/app/employee/page.js:94-106 | For every column and direction, any two rows can be put in some order. |
| EmployeeListPage.MayPrecedeTransitive | src/app/employee/page.js:94-106 | The column order is transitive in both directions. |
| EmployeeListPage.InsertPermutes | src/app/employee/page.js:90-107 | Inserting a row adds exactly that row. |
| EmployeeListPage.PrependSorted | src/app/employee/page.js:90-107 | A row that may precede every row of a sorted list can be put in front, and the list stays sorted. |
| EmployeeListPage.InsertSorted | src/app/employee/page.js:90-107 | Inserting into a sorted list keeps it sorted. |
| EmployeeListPage.InsertFirst | src/app/employee/page.js:90-107 | Inserting the first row into the sorted rest gives a sorted permutation of the whole list. |
| EmployeeListPage.SortRows | src/app/employee/page.js:90-107 | The sorted rows are in the chosen column order and are a permutation of the input. |
| EmployeeListPage.SearchHit | src/app/employee/page.js:117-122 | The search predicate. Characterised by EmployeeListPage.SearchHitIsOccurrence. |
| EmployeeListPage.SearchHitIsOccurrence | src/app/employee/page.js:117-122 | A row matches if and only if the lowercased term occurs in the lowercased name or email, or the raw term occurs in a non-empty mobile number. |
| EmployeeListPage.SearchResults | src/app/employee/page.js:112-127 | An empty term shows the whole loaded list. Otherwise a row is shown if and only if it is loaded and matches, and a matching row is shown exactly as often as it was loaded. The shown rows keep the loaded order. |
| EmployeeListPage.StatusRequest | src/app/employee/page.js:302-318 | The status requested is always in the enum and always the other status. |
| EmployeeListPage.EmployeeListView.constructor | src/app/employee/page.js:7-12 | Empty lists, sorted by name ascending, with an empty search term. |
| EmployeeListPage.EmployeeListView.ShowList | src/app/employee/page.js:21-23 | The loaded list and the shown list both become the data received. |
| EmployeeListPage.EmployeeListView.HandleSort | src/app/employee/page.js:85-110 | The column and next direction are stored. The shown list becomes a sorted permutation of itself. The loaded list and search term are unchanged. The shown list keeps holding only loaded rows. |
| EmployeeListPage.EmployeeListView.HandleSearch | src/app/employee/page.js:112-127 | The term is stored, and the shown list becomes the search results over the loaded list, not over the shown one. The shown list keeps holding only loaded rows. |
| Text.Join | src/app/api/employee/route.js:31 | Joining one item gives that item. Joining n items has their total length plus n-1 separators. |
| Text.JoinSnoc | src/app/api/employee/route.js:31 | Adding an item at the end appends one separator and that item. |
| Text.Split | src/app/api/employee/route.js:31 | Splitting at a separator always gives at least one piece. It is the partner of Text.Join (Text.SplitJoin). |
| Text.SplitPrefix | src/app/api/employee/route.js:31 | A piece free of the separator's first character joins the first piece of what follows it. |
| Text.SplitSeparator | src/app/api/employee/route.js:31 | A leading separator yields an empty first piece. |
| Text.SplitJoin | src/app/api/employee/route.js:31 | Splitting the join of a non-empty list at its separator gives the list back when no item holds the separator's first character. |
| Text.Lower | src/app/employee/page.js:119-120 | Lowercasing keeps the length and maps each character on its own. |
| Text.Contains | src/app/employee/page.js:119-121 | Substring search. Characterised by Text.ContainsOccurs. |
| Text.ContainsOccurs | src/app/employee/page.js:119-121 | `includes` holds if and only if the term occurs at some index. |
| Text.LexLeTotal | src/app/employee/page.js:101-103 | Any two texts are comparable. |
| Text.LexLeTransitive | src/app/employee/page.js:101-103 | The text order is transitive. |
| Text.LexLeAntisymmetric | src/app/employee/page.js:101-103 | Texts that compare both ways are equal. |
| Sequences.SubsequenceReflexive | src/app/employee/page.js:125 | Showing the whole list keeps its order. |
| Sequences.Filter | src/app/employee/page.js:117-122 | The elements that pass, in order. Characterised by Sequences.FilterSpec. |
| Sequences.FilterSpec | src/app/employee/page.js:117-122 | A filter keeps exactly the elements that pass, each as many times as it occurs, in order. |
| Sequences.FilterAppend | src/app/employee/addemployee/page.js:194 | Filtering a concatenation filters each part. |
| Sequences.FilterKeepsAll | src/app/employee/addemployee/page.js:194 | A filter that keeps every element returns its input. |

## Left out

- Database connection and I/O (`connectDb`, Mongo queries) are not modelled. The collection is a sequence held by `EmployeeStore`, and a database failure is the `fails` or `saveFails` flag.
- The POST handler's `findOne` and `save` are two awaits with no transaction between them. EmployeeRoute.EmployeeStore.Post takes them as one atomic step, so a concurrent insert between the two is not modelled.
- A request body that fails to parse is not modelled. It ends in POST's catch with "Failed to add employee", and in the login route's catch with a 500 carrying the exception message. Bodies are well-formed records; a missing or null text field is the empty string.
- A course sent as `null` is modelled like a missing one, so the document gets an empty course list. How Mongoose casts an explicit null for an array path is not modelled.
- The `_id` is a natural number from a counter. ObjectId generation is not modelled.
- Timestamps are integers from the `now` parameter. `Date` parsing is not modelled.
- LoginRoute.Login: `jwt.sign` is the `sign` parameter, and `TOKEN_SECRET` is not modelled. The token's contents, signature and expiry are never checked anywhere, which Middleware.TokenContentIgnored states.
- The user model's `sno` auto-increment plugin is not modelled. The user collection is a plain sequence.
- AddEmployeePage.TextIssues: the email rule is the `isEmail` parameter. The validation library's email regular expression is not modelled.
- AddEmployeePage.TextIssues: each issue names only its field. Zod's message texts are not modelled.
- AddEmployeePage.AddEmployeeForm.Submit: the upload through `uploadFile` (`src/service/file.js`) is the `upload` parameter. The fetch to the API, the toasts, the alert, the router push and the loading flag are not modelled. The body the POST handler reads is given by AddEmployeePage.RequestBody.
- NewPage: its submit handler only uploads and logs, so it is not modelled; as its schema refuses every form (NewPage.FileListNeverAccepted), the handler is never reached. Its course checkboxes run the same toggle as the add-employee form (AddEmployeePage.ToggleCourse).
- Text.Lower lowercases ASCII letters only. Unicode case mapping is not modelled.
- Text.LexLeTotal: `localeCompare` is modelled as lexicographic order on characters. Locale collation rules are not modelled.
- EmployeeListPage.SortRows: the `_id` reaches the page from JSON as a hex text, so the comparator orders it by locale comparison. The model keeps ids as counters and compares them as numbers; for hex texts of equal length and case, as ObjectIds are, the two orders agree. The comparator's numeric branch is dead code, as none of the four sortable columns holds a number. Sort stability is not proved: the contract does not say where rows that compare equal end up relative to each other.
- EmployeeListPage.EmployeeListView.ShowList models only a list reply. When the GET handler answers with the "No employees found" object, the page stores that object as its list; this is not modelled.
- The list page's `changeStatus`, `deleteEmployee`, the refetch after them, and its rendering and loading state are not modelled. Only the status each row's action asks for is modelled (EmployeeListPage.StatusRequest).
- The `/api/employee/[employeeId]` and `/api/employee/[employeeId]/[status]` routes and the edit page are not part of this model.
- The login page, navigation bar, layout, image component and home page are UI outside the modelled core.
- Middleware.Gate: the matcher is modelled as `/`, `/login`, `/employee` and any path below `/employee/`. Trailing-slash and locale variants of Next.js path matching are not modelled.
