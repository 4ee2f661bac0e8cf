# Library catalogue UI and users API, modelled in Dafny

This project models the core of a library-catalogue web application. It has
two parts.

The first is a React client:
- the validation rules (blank strings, the e-mail pattern, the four password rules);
- the persisted session (current user and bearer token in `localStorage`) and the JSON Web Token checks;
- the `useAuth` and `useNotification` hooks;
- the book-filter query builder and the book request bodies;
- the book, author, genre, login, registration and user forms, with field-by-field validation, error clearing on edit, and the submit protocol;
- the book, author, genre and user list pages, with confirm-then-apply deletes and saved books;
- the route guards and the navigation bar.

The second is the server's `api/users` controller, an in-memory list with
create, update, get and delete.

Each source file is one module:

| module | file |
|---|---|
| `Validation` | `validation.dfy` |
| `AuthUtil` | `authutil.dfy` |
| `UseAuth` | `useauth.dfy` |
| `UseNotification` | `notification.dfy` |
| `BookService` | `bookservice.dfy` |
| `BookFilter`, `BookForm`, `BookList` | `bookfilter.dfy`, `bookform.dfy`, `booklist.dfy` |
| `AuthorForm`, `AuthorList` | `authorform.dfy`, `authorlist.dfy` |
| `GenreForm`, `GenreList` | `genreform.dfy`, `genrelist.dfy` |
| `LoginForm`, `RegisterForm` | `loginform.dfy`, `registerform.dfy` |
| `UserForm`, `UserList` | `userform.dfy`, `userlist.dfy` |
| `App` | `app.dfy` |
| `Navigation` | `navigation.dfy` |
| `UsersController` | `userscontroller.dfy` |

Shared modules:
- `Wrappers`: `Option`, and `Result` with an error message.
- `Seqs`: `Array.prototype.filter` and subsequences.
- `Text`: the ECMAScript whitespace class, `trim`, ASCII `toLowerCase`, one-character `split`, `join`, `includes`, and `String(n)` for integers.
- `Storage`: the `localStorage` map, and whether the browser refuses it so that every call throws.
- `Domain`: the records exchanged with the service.
- `Forms`: the error map shared by the forms and the rules several forms use.

How the model stands in for the environment:
- **Stateful code is classes.** Components and hooks that update state are classes whose fields hold that state. Their methods state the new state outright.
- **Reference functions.** Each form's `validateForm` fills its error map step by step. It is proved equal to a declarative error function, and that function is characterised field by field (the `...ErrorsIff` lemmas).
- **Service answers are parameters.** Every awaited service call becomes a parameter of type `Result<T>`: the answer the server gave, or the message of the error it raised. A method returns which request it issued, or `None` when it issued none.
- **Clocks and conversions are parameters.** `Date.now()` becomes `now`. The current year becomes `currentYear`. Date parsing becomes `iso`. `Number`, `parseInt` and `parseFloat` become the `NumberParsers` functions. JSON serialisation of a user becomes `UserCodec`. Base64 and JSON decoding of a token payload becomes `decode`.
- **Storage can throw.** A store carries an optional fault. With a fault, every `localStorage` call throws that error and changes nothing, and each caller's `catch` is modelled.
- **Numbers are integers.** Price is an amount in the smallest currency unit, so a number form value is an integer.

## Model

| member | source | states |
|---|---|---|
| Validation.IsEmptyStringIffWhitespace | UI/library-ui/src/utils/validation.util.ts:40-42 | a value is empty after trimming exactly when every character is ECMAScript whitespace |
| Validation.EmailShape | UI/library-ui/src/utils/validation.util.ts:3-6 | the e-mail pattern matches exactly when the address is a non-empty local part, one '@', and a domain holding an inner '.', neither part containing whitespace or '@' |
| Validation.TwoAtSignsReject | UI/library-ui/src/utils/validation.util.ts:4 | an address with two '@' never matches |
| Validation.WhitespaceRejects | UI/library-ui/src/utils/validation.util.ts:4 | an address with any whitespace character never matches |
| Validation.EmailExamples | UI/library-ui/src/utils/validation.util.ts:3-6 | "a@b", "a.b@" and "ab" are rejected; "a@b.com" is accepted |
| Validation.Messages | UI/library-ui/src/utils/validation.util.ts:21-32 | one message per violated rule, so the list is as long as the rules it reports |
| Validation.ValidatePassword | UI/library-ui/src/utils/validation.util.ts:18-38 | the errors pushed one by one are exactly the messages of the violated rules in rule order; `valid` holds exactly when there are none |
| Validation.PasswordValidIff | UI/library-ui/src/utils/validation.util.ts:18-38 | no messages exactly when the password has length at least 8, an uppercase letter, a lowercase letter and a digit |
| Validation.PasswordReportsEveryViolation | UI/library-ui/src/utils/validation.util.ts:21-32 | a rule's message is reported exactly when that rule is violated (no short-circuit); at most four messages |
| Validation.MessagesDistinct | UI/library-ui/src/utils/validation.util.ts:22-31 | the four messages are pairwise different, so a message names its rule |
| Validation.PasswordRuleOrder | UI/library-ui/src/utils/validation.util.ts:21-32 | the violated rules come out in the order length, uppercase, lowercase, digit |
| Text.TrimIsSlice | UI/library-ui/src/utils/validation.util.ts:41 | `trim` returns a contiguous slice with only whitespace cut from both ends |
| Text.TrimEmptyIffAllWhitespace | UI/library-ui/src/utils/validation.util.ts:41 | the trimmed string is empty exactly when the whole string is whitespace |
| Text.TrimWhitespaceFree | UI/library-ui/src/utils/validation.util.ts:41 | a non-empty trimmed string neither starts nor ends with whitespace |
| Text.ToLower | UI/library-ui/src/components/auth/RegisterForm.tsx:96 | lower-casing keeps the length, leaves no ASCII capital and keeps every other character |
| Text.ToLowerIdempotent | UI/library-ui/src/components/books/BookForm.tsx:205 | lower-casing twice is lower-casing once |
| Text.SplitCount | UI/library-ui/src/utils/auth.util.ts:60-61 | `split('.')` yields one more part than there are dots |
| Text.SplitPiecesFree | UI/library-ui/src/utils/auth.util.ts:60 | no part holds the separator |
| Text.SplitJoin | UI/library-ui/src/utils/auth.util.ts:60 | joining the parts with the separator gives the token back |
| Text.NatToStringRoundTrip | UI/library-ui/src/services/bookService.ts:21 | the decimal digits of `String(n)` read back as n |
| Text.IntToStringInjective | UI/library-ui/src/services/bookService.ts:21 | different genre ids are sent as different strings |
| Seqs.Filter | UI/library-ui/src/components/books/BookList.tsx:84 | `filter` keeps only elements that were there and pass the test, never more of them |
| Seqs.FilterIsSubsequence | UI/library-ui/src/components/common/Navigation.tsx:24-26 | filtering keeps the survivors in their original order |
| Seqs.FilterCount | UI/library-ui/src/components/books/BookList.tsx:84 | a passing element survives as often as it occurs; a failing one not at all |
| Seqs.FilterMembers | UI/library-ui/src/components/common/Navigation.tsx:24-26 | membership in the result is membership in the input plus passing the test |
| Seqs.FilterAll | UI/library-ui/src/components/common/Navigation.tsx:24-26 | nothing is removed exactly when every element passes |
| Seqs.FilterNone | UI/library-ui/src/components/common/Navigation.tsx:24-26 | nothing is left exactly when no element passes |
| Seqs.FilterConcat | UI/library-ui/src/components/common/Navigation.tsx:24-26 | filtering a concatenation filters each part |
| Storage.LocalStorage.GetItem | UI/library-ui/src/utils/auth.util.ts:8 | `getItem` answers the stored value, or null when the key is absent; it throws the store's error exactly when the store is refused |
| Storage.LocalStorage.SetItem | UI/library-ui/src/utils/auth.util.ts:19 | `setItem` writes one key and changes nothing else; a refused store throws and changes nothing |
| Storage.LocalStorage.RemoveItem | UI/library-ui/src/utils/auth.util.ts:21 | `removeItem` deletes one key and changes nothing else; a refused store throws and changes nothing |
| AuthUtil.UserSaved | UI/library-ui/src/utils/auth.util.ts:16-26 | saving writes or removes only the user key; saving null leaves no entry; with a faithful JSON codec the next read gives the saved user |
| AuthUtil.TokenSaved | UI/library-ui/src/utils/auth.util.ts:37-47 | saving a null or empty token removes the token key; any other token is what the key then holds; other keys untouched |
| AuthUtil.AuthCleared | UI/library-ui/src/utils/auth.util.ts:49-56 | both session keys are gone and every other key is untouched |
| AuthUtil.GetUserFromStorage | UI/library-ui/src/utils/auth.util.ts:6-14 | reading gives no user for a missing or empty entry, else the parse of the stored text; a throwing read is caught and gives no user |
| AuthUtil.SaveUserToStorage | UI/library-ui/src/utils/auth.util.ts:16-26 | the store afterwards is exactly `UserSaved` of the store before; a throwing store is caught and left as it was |
| AuthUtil.GetTokenFromStorage | UI/library-ui/src/utils/auth.util.ts:28-35 | the token read is what the token key holds, or none; a throwing read is caught and gives no token |
| AuthUtil.SaveTokenToStorage | UI/library-ui/src/utils/auth.util.ts:37-47 | the store afterwards is exactly `TokenSaved` of the store before; a throwing store is caught and left as it was |
| AuthUtil.ClearAuthStorage | UI/library-ui/src/utils/auth.util.ts:49-56 | the store afterwards is exactly `AuthCleared` of the store before; a throwing first removal is caught, the second does not run, and both keys stay |
| AuthUtil.TokenRoundTrip | UI/library-ui/src/utils/auth.util.ts:37-47 | a saved non-empty token reads back; saving "" acts as saving null |
| AuthUtil.SavesAreIndependent | UI/library-ui/src/utils/auth.util.ts:16-47 | saving the user never changes the token, and saving the token never changes the stored user |
| AuthUtil.DecodeToken | UI/library-ui/src/utils/auth.util.ts:71-78 | claims come back only for a token with exactly two dots |
| AuthUtil.IsTokenExpired | UI/library-ui/src/utils/auth.util.ts:58-69 | a token without exactly two dots is expired |
| AuthUtil.ExpiryFromDecode | UI/library-ui/src/utils/auth.util.ts:58-78 | expired exactly when decoding fails, or the decoded `exp` in milliseconds is before `now`; a missing `exp` never expires |
| AuthUtil.CompactFormPayload | UI/library-ui/src/utils/auth.util.ts:73-75 | for `header.payload.signature` without further dots the claims are the decoded payload |
| AuthUtil.MalformedTokenIsExpired | UI/library-ui/src/utils/auth.util.ts:60-61 | a malformed token is expired and decodes to nothing, whatever the clock and the decoder |
| UseAuth.AuthSession.constructor | UI/library-ui/src/hooks/useAuth.ts:6-28 | the session starts with the stored user, or none when the read throws, and agrees with what a fresh read gives |
| UseAuth.AuthSession.SetUser | UI/library-ui/src/hooks/useAuth.ts:15-33 | the user becomes the given one and the store is written as `saveUserToStorage` would, so session and store agree; a throwing store is ignored and left as it was, and session and store then disagree exactly when there is a user |
| UseAuth.AuthSession.Login | UI/library-ui/src/hooks/useAuth.ts:35-43 | after login the user is set and the session is authenticated; a working store holds that user, and a throwing one is unchanged and out of step |
| UseAuth.AuthSession.Logout | UI/library-ui/src/hooks/useAuth.ts:39-43 | after logout there is no user, only the user key is removed (nothing when the store throws), and the token is left where it was |
| UseNotification.Shown | UI/library-ui/src/hooks/useNotification.ts:13-18 | a shown notification is visible with its message and a kind that defaults to info |
| UseNotification.Hidden | UI/library-ui/src/hooks/useNotification.ts:20-22 | hiding clears only the visibility and keeps message and kind |
| UseNotification.HideThenShow | UI/library-ui/src/hooks/useNotification.ts:13-22 | hiding twice is hiding once; hiding a just-shown notification keeps what was shown |
| UseNotification.Notifier.constructor | UI/library-ui/src/hooks/useNotification.ts:4-11 | the state starts as the given default, or the hidden empty info notification |
| UseNotification.Notifier.ShowNotification | UI/library-ui/src/hooks/useNotification.ts:13-18 | the state becomes the shown notification |
| UseNotification.Notifier.HideNotification | UI/library-ui/src/hooks/useNotification.ts:20-22 | the state becomes the hidden form of the previous one |
| UseNotification.Notifier.ClearNotification | UI/library-ui/src/hooks/useNotification.ts:24-26 | the state returns to the module's initial state |
| BookService.SortOrderText | UI/library-ui/src/services/bookService.ts:23 | a sort order is always sent as a non-empty word |
| BookService.TextValue | UI/library-ui/src/services/bookService.ts:19-22 | a text parameter is sent exactly when it is present and non-empty, and unchanged |
| BookService.GenreValue | UI/library-ui/src/services/bookService.ts:21 | a genre id is omitted exactly when it is absent, "" or the number 0, and is never sent empty |
| BookService.OrderValue | UI/library-ui/src/services/bookService.ts:23 | the sort order is sent exactly when it is present |
| BookService.BuildQueryParams | UI/library-ui/src/services/bookService.ts:17-25 | the pairs appended step by step are exactly the reference query for the filter |
| BookService.QueryOrdered | UI/library-ui/src/services/bookService.ts:17-25 | the query's keys are known, pairwise distinct, in the fixed field order, and at most five |
| BookService.QueryMembers | UI/library-ui/src/services/bookService.ts:19-23 | for every field and value, the pair is in the query exactly when the filter holds that truthy value |
| BookService.GenreNumberParam | UI/library-ui/src/services/bookService.ts:21 | a numeric genre id 0 is dropped; any other is sent as its decimal text |
| BookService.EmptyFilterEmptyQuery | UI/library-ui/src/services/bookService.ts:17-25 | an empty filter gives an empty query |
| BookService.SearchBooksByTitle | UI/library-ui/src/services/bookService.ts:79-81 | a title search is the filter with only the title, i.e. one pair or none for "" |
| BookService.FormatBookFormData | UI/library-ui/src/services/bookService.ts:27-34 | title and author copied; genre ids kept only when an array; isbn defaults to ""; text year through `parseInt`, text price through `parseFloat`, numbers kept |
| BookService.FormatKeepsWellFormed | UI/library-ui/src/services/bookService.ts:27-34 | data that is already well typed is passed through unchanged |
| BookService.BodyFor | UI/library-ui/src/services/bookService.ts:85-101 | a payload carrying the `genreIds` key is sent as given; any other is formatted and then has no genres |
| BookFilter.Edited | UI/library-ui/src/components/books/BookFilter.tsx:49-55 | an edit changes the one named field and no other |
| BookFilter.Copied | UI/library-ui/src/components/books/BookFilter.tsx:59-62 | a field is copied into the filter exactly when it is non-empty |
| BookFilter.Applied | UI/library-ui/src/components/books/BookFilter.tsx:57-66 | each text field is in the filter exactly when non-empty, with its value; the sort order is always there |
| BookFilter.AppliedQueryUnpruned | UI/library-ui/src/components/books/BookFilter.tsx:57-66 | dropping empty fields before building the query changes nothing about the query |
| BookFilter.InitialApplied | UI/library-ui/src/components/books/BookFilter.tsx:24-30 | the initial panel asks for books sorted by title ascending and nothing else |
| BookFilter.FilterPanel.constructor | UI/library-ui/src/components/books/BookFilter.tsx:24-30 | the panel starts at the initial filter |
| BookFilter.FilterPanel.HandleChange | UI/library-ui/src/components/books/BookFilter.tsx:49-55 | the panel state becomes the edited state |
| BookFilter.FilterPanel.HandleApplyFilters | UI/library-ui/src/components/books/BookFilter.tsx:57-66 | the filters handed on are `Applied` of the panel state |
| BookFilter.FilterPanel.HandleReset | UI/library-ui/src/components/books/BookFilter.tsx:68-77 | the panel returns to its initial state and an empty filter, hence an empty query, is handed on |
| BookForm.InitialFields | UI/library-ui/src/components/books/BookForm.tsx:34-41 | a new book starts blank; an edited book's fields are copied, with year 0 shown empty and a missing genre list empty |
| BookForm.BookErrorsIff | UI/library-ui/src/components/books/BookForm.tsx:65-93 | each key is in the errors exactly when its rule fails: blank title, blank author, no genre, an unacceptable year, an unacceptable price |
| BookForm.BookValidIff | UI/library-ui/src/components/books/BookForm.tsx:65-93 | the form is valid exactly when all five rules hold |
| BookForm.EmptyYearAccepted | UI/library-ui/src/components/books/BookForm.tsx:80-85 | an empty year is never an error |
| BookForm.SubmitData | UI/library-ui/src/components/books/BookForm.tsx:130-137 | title, author, isbn and genres copied; a falsy year and an empty price are sent as 0 |
| BookForm.ValidSubmitData | UI/library-ui/src/components/books/BookForm.tsx:65-137 | a valid form sends a non-negative price, at least one genre, and a year within 0 and the current year |
| BookForm.SubmitSentAsGiven | UI/library-ui/src/components/books/BookForm.tsx:130-145 | the submitted payload always carries `genreIds`, so the service sends it unformatted |
| BookForm.ToggledGenres | UI/library-ui/src/components/books/BookForm.tsx:99-107 | ticking appends the id; unticking removes every copy of it and keeps the other ids in order and number |
| BookForm.CheckThenUncheck | UI/library-ui/src/components/books/BookForm.tsx:99-107 | ticking then unticking a genre that was not selected restores the list |
| BookForm.GenreChoices | UI/library-ui/src/components/books/BookForm.tsx:204-205 | offered genres are those whose lower-cased name is not "unknown", in their order |
| BookForm.UnknownHidden | UI/library-ui/src/components/books/BookForm.tsx:205 | "Unknown" and "UNKNOWN" are never offered |
| BookForm.EditedFields | UI/library-ui/src/components/books/BookForm.tsx:95-113 | an input sets its own field (text as typed, year and price as text, a checkbox toggling its genre) and leaves every other field unchanged |
| BookForm.BookEditor.constructor | UI/library-ui/src/components/books/BookForm.tsx:34-41 | the editor starts at the initial fields with no errors |
| BookForm.BookEditor.ValidateForm | UI/library-ui/src/components/books/BookForm.tsx:65-93 | the errors filled field by field are exactly `BookErrors`; the answer is whether there are none |
| BookForm.BookEditor.HandleChange | UI/library-ui/src/components/books/BookForm.tsx:95-119 | the fields become the edited fields and the edited field's error, and only that, is cleared |
| BookForm.BookEditor.HandleSubmit | UI/library-ui/src/components/books/BookForm.tsx:121-145 | nothing is sent exactly when validation fails; otherwise an update of the given book, or a create, of the submit data as given |
| BookList.IdsOf | UI/library-ui/src/components/books/BookList.tsx:41 | the saved set holds exactly the ids of the answered books |
| BookList.DeleteKeepsOthers | UI/library-ui/src/components/books/BookList.tsx:84 | removing by id drops exactly the books with that id and keeps the others in order and number |
| BookList.BookListPage.constructor | UI/library-ui/src/components/books/BookList.tsx:17-22 | the page starts with no books, nothing pending and no saved ids |
| BookList.BookListPage.FetchBooks | UI/library-ui/src/components/books/BookList.tsx:24-35 | the list is replaced by the answer, or kept with an error shown |
| BookList.BookListPage.FetchUserSavedBooks | UI/library-ui/src/components/books/BookList.tsx:37-45 | no user means no call; an answer replaces the saved set by its ids; a failure changes nothing |
| BookList.BookListPage.HandleDelete | UI/library-ui/src/components/books/BookList.tsx:59-61 | the book only waits for confirmation |
| BookList.BookListPage.HandleSaveBook | UI/library-ui/src/components/books/BookList.tsx:63-77 | no user means a login prompt and no call; success adds exactly that id with a message naming the title; failure keeps the set and shows the error |
| BookList.BookListPage.HandleConfirmDelete | UI/library-ui/src/components/books/BookList.tsx:79-91 | nothing pending is a no-op; success removes that id and clears the confirmation; failure keeps list and confirmation |
| BookList.BookListPage.HandleFilterApply | UI/library-ui/src/components/books/BookList.tsx:108-119 | the query sent is the reference query of the filters; the answer replaces the list, or an error is shown |
| BookList.BookListPage.CardFor | UI/library-ui/src/components/books/BookList.tsx:178-181 | edit and delete are given to administrators only; a book is marked saved exactly when its id is in the saved set |
| AuthorForm.InitialFields | UI/library-ui/src/components/authors/AuthorForm.tsx:23-27 | a new author starts blank; an edited one's names and birth date are copied |
| AuthorForm.NameErrorIff | UI/library-ui/src/components/authors/AuthorForm.tsx:33-43 | a name is refused exactly when blank or shorter than 2 characters: as required exactly when blank, as too short exactly when not blank and short |
| AuthorForm.AuthorErrorsIff | UI/library-ui/src/components/authors/AuthorForm.tsx:31-52 | each key is in the errors exactly when its rule fails; its message is "required" when the value is blank, and otherwise "at least 2 characters" for a name and "Invalid date" for the date |
| AuthorForm.UntrimmedLength | UI/library-ui/src/components/authors/AuthorForm.tsx:35 | the length rule counts untrimmed characters, so " J" passes |
| AuthorForm.AuthorValidIff | UI/library-ui/src/components/authors/AuthorForm.tsx:31-52 | the form is valid exactly when both names are non-blank and at least 2 long and the date is non-blank and parses |
| AuthorForm.SubmitData | UI/library-ui/src/components/authors/AuthorForm.tsx:75-80 | a payload exists exactly when the date parses, with the names copied and the date in ISO form |
| AuthorForm.ValidFormConverts | UI/library-ui/src/components/authors/AuthorForm.tsx:45-80 | a valid form always has a payload |
| AuthorForm.EditedFields | UI/library-ui/src/components/authors/AuthorForm.tsx:55-64 | an input sets its own field to the text and leaves the other fields unchanged |
| AuthorForm.AuthorEditor.constructor | UI/library-ui/src/components/authors/AuthorForm.tsx:23-27 | the editor starts at the initial fields with no errors |
| AuthorForm.AuthorEditor.ValidateForm | UI/library-ui/src/components/authors/AuthorForm.tsx:31-52 | the errors filled step by step are exactly `AuthorErrors` |
| AuthorForm.AuthorEditor.HandleChange | UI/library-ui/src/components/authors/AuthorForm.tsx:55-64 | the fields become the edited fields and only the edited field's error is cleared |
| AuthorForm.AuthorEditor.HandleSubmit | UI/library-ui/src/components/authors/AuthorForm.tsx:66-88 | nothing is sent exactly when validation fails; otherwise an update of the given author, or a create, of the converted payload |
| AuthorList.BlockedMessageNamesCount | UI/library-ui/src/components/authors/AuthorList.tsx:44-47 | the refusal names the author's book count |
| AuthorList.DeleteKeepsOthers | UI/library-ui/src/components/authors/AuthorList.tsx:58 | removing by id drops exactly the authors with that id and keeps the others in order |
| AuthorList.DeleteButtonFor | UI/library-ui/src/components/authors/AuthorList.tsx:150-154 | the delete button is disabled exactly when the handler would refuse, with an empty tooltip otherwise |
| AuthorList.AuthorListPage.constructor | UI/library-ui/src/components/authors/AuthorList.tsx:14-18 | the page starts empty with nothing pending |
| AuthorList.AuthorListPage.FetchAuthors | UI/library-ui/src/components/authors/AuthorList.tsx:20-31 | the list is replaced by the answer, or kept with an error shown |
| AuthorList.AuthorListPage.HandleDelete | UI/library-ui/src/components/authors/AuthorList.tsx:42-51 | an author with books (a missing count is none) is refused with a message; any other waits for confirmation; only authors without books are ever pending |
| AuthorList.AuthorListPage.HandleConfirmDelete | UI/library-ui/src/components/authors/AuthorList.tsx:53-65 | nothing pending is a no-op; only an author without books is deleted; success removes that id; failure keeps list and confirmation |
| AuthorList.AuthorListPage.ShowsActions | UI/library-ui/src/components/authors/AuthorList.tsx:142 | actions are shown to administrators only |
| GenreForm.InitialFields | UI/library-ui/src/components/genres/GenreForm.tsx:22-25 | a new genre starts blank; an edited one's name and description (or "") are copied |
| GenreForm.GenreErrors | UI/library-ui/src/components/genres/GenreForm.tsx:28-36 | the only possible error is the name, present exactly when the name is blank |
| GenreForm.DescriptionNeverChecked | UI/library-ui/src/components/genres/GenreForm.tsx:28-36 | the description never affects validation; the form is valid exactly when the name is not blank |
| GenreForm.GenreEditor.constructor | UI/library-ui/src/components/genres/GenreForm.tsx:22-25 | the editor starts at the initial fields with no errors |
| GenreForm.GenreEditor.ValidateForm | UI/library-ui/src/components/genres/GenreForm.tsx:28-36 | the errors filled are exactly `GenreErrors` |
| GenreForm.GenreEditor.HandleChange | UI/library-ui/src/components/genres/GenreForm.tsx:39-48 | the edited field takes the text and only its error is cleared |
| GenreForm.GenreEditor.HandleSubmit | UI/library-ui/src/components/genres/GenreForm.tsx:50-62 | nothing is sent exactly when the name is blank; otherwise an update of the given genre, or a create, of the fields |
| GenreList.DeleteKeepsOthers | UI/library-ui/src/components/genres/GenreList.tsx:51 | removing by id drops exactly the genres with that id, keeps the others in order, and is the identity when no genre has it |
| GenreList.DescriptionCell | UI/library-ui/src/components/genres/GenreList.tsx:138 | a missing or empty description shows a dash; any other shows itself |
| GenreList.GenreListPage.constructor | UI/library-ui/src/components/genres/GenreList.tsx:14-18 | the page starts empty with nothing pending |
| GenreList.GenreListPage.FetchGenres | UI/library-ui/src/components/genres/GenreList.tsx:20-31 | the list is replaced by the answer, or kept with an error shown |
| GenreList.GenreListPage.HandleDelete | UI/library-ui/src/components/genres/GenreList.tsx:42-44 | the genre only waits for confirmation |
| GenreList.GenreListPage.HandleConfirmDelete | UI/library-ui/src/components/genres/GenreList.tsx:46-58 | nothing pending is a no-op; success removes that id and clears the confirmation; failure keeps both |
| GenreList.GenreListPage.ShowsActions | UI/library-ui/src/components/genres/GenreList.tsx:131-139 | the actions column is shown to administrators only |
| Forms.PutEffect | UI/library-ui/src/components/books/BookForm.tsx:69 | a failed check holds its message under its key, a passed one leaves that key as it was, and every other key and its value are kept |
| Forms.Required | UI/library-ui/src/components/genres/GenreForm.tsx:31-33 | a required-field error exactly when the value is blank |
| Forms.EmailError | UI/library-ui/src/components/auth/LoginForm.tsx:29-33 | "Email is required" exactly when blank, "Invalid email format" exactly when non-blank and not matching, none exactly otherwise |
| Forms.StrengthError | UI/library-ui/src/components/auth/RegisterForm.tsx:60-63 | no error exactly when the password passes all four rules; otherwise the rule messages joined with "; " |
| Forms.ProfileErrorsIff | UI/library-ui/src/components/auth/RegisterForm.tsx:46-58 | the shared profile rules record a name error exactly when the name is blank, a nick-name error exactly when it is blank, and an e-mail error exactly when the address does not match; no other key |
| Forms.AfterEdit | UI/library-ui/src/components/books/BookForm.tsx:114-116 | editing a field clears that field's error and keeps every other one |
| Forms.JoinedMessagesMention | UI/library-ui/src/components/auth/RegisterForm.tsx:62 | the joined message mentions every violated rule |
| LoginForm.LoginErrorsIff | UI/library-ui/src/components/auth/LoginForm.tsx:27-40 | an e-mail error exactly when the address does not match, a password error exactly when it is blank; valid exactly when neither |
| LoginForm.BlankIsNotEmail | UI/library-ui/src/components/auth/LoginForm.tsx:29-33 | a blank address never matches, so the format check covers it |
| LoginForm.WeakPasswordAccepted | UI/library-ui/src/components/auth/LoginForm.tsx:35-37 | login checks only presence of the password, so "x" passes |
| LoginForm.LoginPanel.constructor | UI/library-ui/src/components/auth/LoginForm.tsx:20-23 | the panel starts blank with no errors |
| LoginForm.LoginPanel.ValidateForm | UI/library-ui/src/components/auth/LoginForm.tsx:27-40 | the errors filled are exactly `LoginErrors` |
| LoginForm.LoginPanel.HandleChange | UI/library-ui/src/components/auth/LoginForm.tsx:43-52 | the edited field takes the text and only its error is cleared |
| LoginForm.LoginPanel.HandleSubmit | UI/library-ui/src/components/auth/LoginForm.tsx:54-77 | nothing is sent exactly when validation fails; success logs the user in, stores user and token and shows success; failure changes no session state and shows the error; a throwing store leaves the user logged in, stores nothing and shows the store's error |
| LoginForm.LoginTokenReadsBack | UI/library-ui/src/components/auth/LoginForm.tsx:62-65 | after login the token reads back as answered, even when empty, and the user as logged in |
| RegisterForm.RegisterErrorsIff | UI/library-ui/src/components/auth/RegisterForm.tsx:44-70 | each key is in the errors exactly when its rule fails: blank name or nick name, e-mail missing or malformed, a weak password, a confirmation that differs |
| RegisterForm.RegisterValidIff | UI/library-ui/src/components/auth/RegisterForm.tsx:44-70 | the form is valid exactly when all five rules hold |
| RegisterForm.FindByEmail | UI/library-ui/src/components/auth/RegisterForm.tsx:95-97 | a user is found exactly when some listed user's address equals the typed one ignoring ASCII case, and the one found is listed |
| RegisterForm.CaseInsensitiveDuplicate | UI/library-ui/src/components/auth/RegisterForm.tsx:95-97 | any listed address equal up to case counts as taken |
| RegisterForm.ConfirmationStripped | UI/library-ui/src/components/auth/RegisterForm.tsx:106-107 | the confirmation never reaches the request; password and e-mail are sent as typed |
| RegisterForm.RegisterPanel.constructor | UI/library-ui/src/components/auth/RegisterForm.tsx:33-40 | the panel starts blank, not administrator, with no errors |
| RegisterForm.RegisterPanel.ValidateForm | UI/library-ui/src/components/auth/RegisterForm.tsx:44-70 | the errors filled are exactly `RegisterErrors` |
| RegisterForm.EditedFields | UI/library-ui/src/components/auth/RegisterForm.tsx:73-77 | each field takes the text exactly when the input names it, `isAdmin` takes the checkbox, and every other field is unchanged |
| RegisterForm.RegisterPanel.HandleChange | UI/library-ui/src/components/auth/RegisterForm.tsx:73-83 | the fields become `EditedFields` of the old ones, and only the edited field's error is cleared |
| RegisterForm.RegisterPanel.HandleSubmit | UI/library-ui/src/components/auth/RegisterForm.tsx:85-131 | a request is sent exactly when the form is valid and the address is not already listed; success logs in with the placeholder token; a conflict reply, or a store error that mentions one, marks the e-mail field |
| RegisterForm.RegisterPanel.RejectDuplicate | UI/library-ui/src/components/auth/RegisterForm.tsx:99-104 | a taken address sets only the e-mail error and shows it |
| RegisterForm.RegisterPanel.CompleteRegistration | UI/library-ui/src/components/auth/RegisterForm.tsx:108-131 | success stores the user and the placeholder token and shows success; failure leaves the session and shows either the conflict message or the error; a throwing store leaves the user logged in with nothing stored, and its error takes the failure path |
| RegisterForm.RegisterPanel.ReportFailure | UI/library-ui/src/components/auth/RegisterForm.tsx:117-131 | a message mentioning an existing account sets only the e-mail error and shows the duplicate message; any other is shown as it is, with the errors kept |
| UserForm.InitialFields | UI/library-ui/src/components/users/UserForm.tsx:29-35 | a new user starts blank; an edited one is copied, and the password always starts empty |
| UserForm.UserErrorsIff | UI/library-ui/src/components/users/UserForm.tsx:39-65 | each key is in the errors exactly when its rule fails; a blank password is required, a weak one reports its rules |
| UserForm.EmptyPasswordRefused | UI/library-ui/src/components/users/UserForm.tsx:55-57 | an empty password always blocks saving, so an edit must re-enter one |
| UserForm.CallFor | UI/library-ui/src/components/users/UserForm.tsx:94-117 | an existing user is updated by id; otherwise an administrator creates and anyone else registers; the request is the form |
| UserForm.UserEditor.constructor | UI/library-ui/src/components/users/UserForm.tsx:29-35 | the editor starts at the initial fields with no errors |
| UserForm.UserEditor.ValidateForm | UI/library-ui/src/components/users/UserForm.tsx:39-65 | the errors filled are exactly `UserErrors` |
| UserForm.EditedFields | UI/library-ui/src/components/users/UserForm.tsx:68-78 | each field takes the text exactly when the input names it, `isAdmin` takes the checkbox, and every other field is unchanged |
| UserForm.UserEditor.HandleChange | UI/library-ui/src/components/users/UserForm.tsx:68-84 | the fields become `EditedFields` of the old ones, and only the edited field's error is cleared |
| UserForm.UserEditor.HandleSubmit | UI/library-ui/src/components/users/UserForm.tsx:86-117 | nothing is sent exactly when validation fails; otherwise the call `CallFor` chooses |
| UserList.RowFor | UI/library-ui/src/components/users/UserList.tsx:147-160 | Edit on every row; Delete exactly on rows that are not the current user |
| UserList.ViewFor | UI/library-ui/src/components/users/UserList.tsx:75-165 | spinner exactly while the first load runs; access denied exactly for a non-administrator otherwise; the table only for administrators, one row per user |
| UserList.DeleteKeepsOthers | UI/library-ui/src/components/users/UserList.tsx:51 | removing by id drops exactly the users with that id and keeps the others in order |
| UserList.UserListPage.constructor | UI/library-ui/src/components/users/UserList.tsx:14-18 | the page starts loading with no users, so it shows the spinner |
| UserList.UserListPage.FetchUsers | UI/library-ui/src/components/users/UserList.tsx:20-31 | loading ends; the list is replaced by the answer, or kept with an error shown |
| UserList.UserListPage.HandleDelete | UI/library-ui/src/components/users/UserList.tsx:42-44 | the user only waits for confirmation |
| UserList.UserListPage.HandleConfirmDelete | UI/library-ui/src/components/users/UserList.tsx:46-58 | nothing pending is a no-op; success removes that id and clears the confirmation; failure keeps both |
| App.ProtectedRoute | UI/library-ui/src/App.tsx:40-55 | no session goes to /auth; an administrator-only route without administrator rights goes to /books; otherwise the element renders; absent flags count as false |
| App.Match | UI/library-ui/src/App.tsx:240-252 | `/authors/:authorId` is chosen exactly for that prefix followed by one non-empty segment, which becomes the id |
| App.SignedOutGoesToAuth | UI/library-ui/src/App.tsx:159-318 | without a session every path but /login, /register and /auth redirects to /auth, and those three render |
| App.SignedInLeavesSignIn | UI/library-ui/src/App.tsx:159-194 | the sign-in pages send a signed-in user to /books |
| App.OnlyUsersIsAdminOnly | UI/library-ui/src/App.tsx:270-284 | a signed-in user is redirected exactly from the sign-in pages and, without administrator rights, from /users; the user page renders exactly for administrators |
| App.MainPagesRender | UI/library-ui/src/App.tsx:197-298 | home, books, authors, genres and profile render for every signed-in user |
| App.UnknownPathIsNotFound | UI/library-ui/src/App.tsx:301-318 | an unknown path shows the 404 page when signed in and redirects to /auth otherwise |
| App.AuthorBooksPath | UI/library-ui/src/App.tsx:240-252 | an author's books page renders under `/authors/` and the id |
| Navigation.FilteredLinksShape | UI/library-ui/src/components/common/Navigation.tsx:24-26 | a link is shown exactly when it is declared and not administrator-only or the user is an administrator; order is kept |
| Navigation.NonAdminSeesFive | UI/library-ui/src/components/common/Navigation.tsx:11-26 | anyone but an administrator sees exactly the first five links |
| Navigation.NonAdminHasNoUsersLink | UI/library-ui/src/components/common/Navigation.tsx:17-26 | anyone but an administrator has no Users link |
| Navigation.AdminSeesAll | UI/library-ui/src/components/common/Navigation.tsx:11-26 | an administrator sees all six links |
| Navigation.DeclaredPaths | UI/library-ui/src/components/common/Navigation.tsx:11-18 | the declared paths, of which only /users is administrator-only |
| Navigation.LinksAreReachable | UI/library-ui/src/components/common/Navigation.tsx:24-26 | every link shown to a signed-in user leads to a page that renders for that user |
| UsersController.FirstIndex | WEB_API/Controllers/UsersController.cs:42 | the position found holds the id and none before it does; none is found exactly when no user has the id |
| UsersController.Updated | WEB_API/Controllers/UsersController.cs:47-49 | the updated user keeps its id and takes the request's names and age; every other user is unchanged |
| UsersController.Removed | WEB_API/Controllers/UsersController.cs:83 | removal shortens the list by one and removes exactly that one user from the multiset |
| UsersController.UpdateKeepsIds | WEB_API/Controllers/UsersController.cs:47-49 | an update moves no id, so unique ids stay unique |
| UsersController.RemoveFirstMatch | WEB_API/Controllers/UsersController.cs:77-83 | removing the first match keeps ids unique, and with unique ids no user with that id is left |
| UsersController.AppendFresh | WEB_API/Controllers/UsersController.cs:18-27 | appending a user with a fresh id keeps ids unique and makes that user the one found under its id |
| UsersController.Controller.constructor | WEB_API/Controllers/UsersController.cs:9 | the list starts empty |
| UsersController.Controller.Find | WEB_API/Controllers/UsersController.cs:42 | the scan finds exactly the first user with the id |
| UsersController.Controller.Create | WEB_API/Controllers/UsersController.cs:11-33 | invalid input is refused with no change; otherwise exactly one user with the fresh id and copied fields is appended and answered |
| UsersController.Controller.Update | WEB_API/Controllers/UsersController.cs:34-56 | invalid input or an unknown id is refused with no change; otherwise only the first match takes the request's fields and is answered |
| UsersController.Controller.GetById | WEB_API/Controllers/UsersController.cs:58-66 | a bad request exactly when no user has the id; otherwise the first user with it |
| UsersController.Controller.GetAll | WEB_API/Controllers/UsersController.cs:68-72 | the list in insertion order |
| UsersController.Controller.Delete | WEB_API/Controllers/UsersController.cs:74-85 | an unknown id is refused with no change; otherwise the first match is removed and the remaining list answered |
| UsersController.CreateThenGet | WEB_API/Controllers/UsersController.cs:18-65 | a user just created is what a lookup of its id finds |

## Left out

- Network calls, headers, JSON bodies and `URLSearchParams` encoding are left out. A service call is the `Result` it answered, and a query is a sequence of key-value pairs.
- The fallback messages ('Failed to fetch books' and the like) for a thrown value that is not an `Error` are left out. The model's `Err` always carries a message.
- `JSON.parse`/`JSON.stringify`, `atob`, `Date`, `Date.now`, `Number`, `parseInt`, `parseFloat` and `Guid.NewGuid` are parameters, so their own behaviour is not modelled. Floating point is not modelled: numbers are integers, and NaN is `None`.
- ASP.NET model binding and `ModelState` validation become the `isValid` flag.
- UsersController.Controller.Create: GUID uniqueness is a precondition that the fresh id is not already in the list.
- UsersController.Controller: the static `Users` list (UsersController.cs:9) is shared by concurrent requests and is not thread-safe. The model runs one request at a time, so interleaved requests are not modelled.
- UsersController.Controller.Update: C# users are objects shared by reference between the list and the reply. The model updates a value in the list, so aliasing is not modelled.
- Strings are sequences of code points. JavaScript `length` counts UTF-16 units, so lengths differ for characters outside the Basic Multilingual Plane.
- `toLowerCase` is modelled on ASCII letters only.
- React's `{ ...prev, [name]: undefined }` sets the key to undefined. The model removes the key. `Object.keys` and later truthiness checks see the same thing either way, except that a key set to undefined still counts in `Object.keys` until the next validation replaces the map.
- Each component calls `useAuth` and so holds its own copy of the user. The model gives each form one shared session object over one store.
- Rendering is left out: JSX, the loading flags of the forms, the auto-closing `Notification`, `ConfirmDialog`, `BookCard`, `Header`, `UserProfile`, `AuthorBooks` and `AuthContainer`. So are `console` output, `window.location` redirects and the empty try block at App.tsx:136-147.
- The concurrent joint fetches with `Promise.all`, effect timing and stale closures are left out. The page methods take one answer at a time.
- The `onSuccess`/`onCancel` callbacks, and the error notification that BookForm, AuthorForm, GenreForm and UserForm raise when their service call fails, are left out. Their `HandleSubmit` returns the call issued.
- Page refreshes after a form closes (`handleFormSuccess`) are left out.
- Route matching is exact string matching plus the one `:authorId` segment. React Router's trailing-slash and case handling and URL decoding are not modelled.
- The list pages' `selectedX` and `isFormOpen` state only opens the edit dialog, and is left out.
- BookList.BookListPage.HandleSaveBook: `handleSaveBook` itself has no "already saved" check. The only guard is the disabled save button of a saved book's card (BookCard.tsx:54, fed by BookList.tsx:181), which is left out with rendering. So the model calls the service for any book. Adding an id that is already saved leaves the set unchanged.
- UserList.RowFor: the rule that an administrator cannot delete themself is only the absence of a button. HandleDelete and the server accept any user.
- Storage.LocalStorage: a store either works or throws on every call, with one error message. A store that starts failing partway, or a quota error where only `setItem` throws, is not modelled. So ClearAuthStorage never ends with the user key removed and the token key kept, which a failure between its two removals would give.
- LoginForm.LoginPanel.HandleSubmit writes the answered token with `setItem` directly, as the code does. An empty token is stored, unlike in `saveTokenToStorage`.
- RegisterForm.RegisterPanel.HandleChange: as in the code, the registration form lets the user tick the administrator flag.
- `isValidUser` and `isValidUrl` are runtime type and URL-constructor checks. They are not part of this model.
