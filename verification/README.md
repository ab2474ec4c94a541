# Email verification and user endpoints of the daeseda laundry backend

This project models the part of the laundry service's user controller that
carries logic of its own, and the paging request it builds:

- the **email verification exchange**. `mailAuthentication` issues a one-time
  code for an email that is not yet registered. It stores the code in a shared
  key-value cache under `"EMAIL_CODE" + email`. `mailConfirm` compares a
  submitted code with the stored one. On an exact match it deletes the entry.
  On a mismatch it keeps the entry;
- the signup form's field list, which is split from a fixed text;
- the mapping from the user service's affected-row counts to HTTP statuses for
  the name, nickname and phone updates and for account deletion;
- the defaults of the user listing's query parameters, and the conversion of
  the 1-based page number into the 0-based page index of a page request.

The cache is an immutable `map<string, string>`. Each endpoint is a pure
transition from a store and a request to a response and a new store.

Collaborators outside the model become inputs:
- the directory's duplicate-email check is a function parameter `isAvailable`,
  which is true when no user has the email;
- the code the mail service generates and sends is a parameter;
- the service's row counts are parameters;
- the sort order is a type parameter.

Java semantics are written out where they matter:
- `int` subtraction wraps around at 32 bits;
- a `String` may be `null` (`Option<string>`), and `"EMAIL_CODE" + null`
  is `"EMAIL_CODEnull"`;
- `"x".equals(null)` is false;
- `String.split` on one space drops trailing empty pieces and returns the
  whole text when there is no space.

Modules: `Wrappers` (optional values), `JavaLang` (the Java semantics above),
`Http` (status codes), `CodeStore` (store, key scheme, reference lifecycle
`NoCode -> Pending -> NoCode`), `EmailVerification` (the two endpoints),
`EmailRuns` (sequences of calls), `UserEndpoints` (signup form, count
statuses, listing defaults), `PageRequest` (the paging request).

The code behaves as follows, and the model follows it:
- A mismatched confirmation leaves the pending code in place, so retries are
  unlimited. Nothing expires or limits attempts.
- "No pending code" and "null request body" both answer 304 with the same
  message. The null-body branch of `mailAuthentication` is modelled as
  written, but it cannot be reached behind the framework: the request body is
  required by default, and a missing body is refused before the endpoint runs.

## Model

| member | source | states |
|---|---|---|
| `EmailVerification.MailAuthentication` | daeseda-laundry/src/main/java/laundry/daeseda/controller/UserController.java:132-144 | null body: 304, store unchanged; duplicate email: 409, store unchanged; otherwise 200 with exactly the issued code, that code stored under the email's key, and every other entry unchanged |
| `EmailVerification.MailConfirm` | daeseda-laundry/src/main/java/laundry/daeseda/controller/UserController.java:149-162 | no entry under the email's key: 304, store unchanged; stored code equal to the submitted one: 200 "ok", only that key removed; otherwise (including a null code): 409, store unchanged |
| `EmailVerification.MailAuthenticationFollowsLifecycle` | daeseda-laundry/src/main/java/laundry/daeseda/controller/UserController.java:133-138 | a request moves the email to Pending(code) when available (overwriting any earlier code) and leaves its state alone otherwise |
| `EmailVerification.MailConfirmFollowsLifecycle` | daeseda-laundry/src/main/java/laundry/daeseda/controller/UserController.java:150-159 | a confirmation consumes the pending code on an exact match and otherwise leaves the email's state as it was |
| `EmailVerification.MailConfirmAcceptsExactlyPendingCode` | daeseda-laundry/src/main/java/laundry/daeseda/controller/UserController.java:150-156 | a confirmation is answered 200 if and only if a code is pending and the submitted code equals it |
| `EmailVerification.DuplicateEmailAlwaysConflicts` | daeseda-laundry/src/main/java/laundry/daeseda/controller/UserController.java:139-141 | a registered email gets 409 and no change, whatever codes are pending |
| `CodeStore.Key` | daeseda-laundry/src/main/java/laundry/daeseda/controller/UserController.java:137 | the key is the prefix "EMAIL_CODE" followed by the email's text, "null" for a null email |
| `CodeStore.KeyInjective` | daeseda-laundry/src/main/java/laundry/daeseda/controller/UserController.java:151 | two non-null emails share a key if and only if they are equal |
| `CodeStore.NullEmailSharesKey` | daeseda-laundry/src/main/java/laundry/daeseda/controller/UserController.java:137 | a null email and the email "null" are keyed alike |
| `EmailRuns.StepIsolation` | daeseda-laundry/src/main/java/laundry/daeseda/controller/UserController.java:137-154 | a call changes no entry except its own email's key |
| `EmailRuns.StepLocality` | daeseda-laundry/src/main/java/laundry/daeseda/controller/UserController.java:150-159 | a call's response and its effect on its own key depend only on that key's entry |
| `EmailRuns.RunIsolation` | daeseda-laundry/src/main/java/laundry/daeseda/controller/UserController.java:132-162 | any sequence of calls on other cache keys leaves the entry at a key untouched |
| `EmailRuns.DistinctEmailsIsolated` | daeseda-laundry/src/main/java/laundry/daeseda/controller/UserController.java:132-162 | any sequence of calls whose emails are all non-null and different from a non-null email leaves that email's lifecycle state untouched |
| `EmailRuns.RunLocality` | daeseda-laundry/src/main/java/laundry/daeseda/controller/UserController.java:132-162 | a sequence of calls for one email answers the same from any two stores that agree on that email's key |
| `EmailRuns.SingleUse` | daeseda-laundry/src/main/java/laundry/daeseda/controller/UserController.java:150-156 | over any run, accepted confirmations for a key plus a code still pending at the end never exceed codes issued for it plus a code pending at the start |
| `EmailRuns.IssueRetryConfirmReplay` | daeseda-laundry/src/main/java/laundry/daeseda/controller/UserController.java:133-161 | request, wrong code, right code, right code again: 200 with the code, 409, 200 "ok", 304; no code remains |
| `EmailRuns.LatestCodeWins` | daeseda-laundry/src/main/java/laundry/daeseda/controller/UserController.java:137 | after two requests the first code is refused with 409 and the second is accepted |
| `EmailRuns.ConfirmWithoutPendingCode` | daeseda-laundry/src/main/java/laundry/daeseda/controller/UserController.java:150-161 | with nothing pending a confirmation gets 304 and leaves the store unchanged |
| `EmailRuns.WorkedExample` | daeseda-laundry/src/main/java/laundry/daeseda/controller/UserController.java:132-162 | codes "123456" issued for a@x.com; "000000" refused; "123456" accepted once; a replay gets 304 |
| `UserEndpoints.SignupTextSplitsIntoFields` | daeseda-laundry/src/main/java/laundry/daeseda/controller/UserController.java:38-39 | splitting the form text on spaces yields exactly the five field names, in order |
| `UserEndpoints.CopyToList` | daeseda-laundry/src/main/java/laundry/daeseda/controller/UserController.java:40-43 | copying the array element by element yields the same sequence |
| `UserEndpoints.GetSignup` | daeseda-laundry/src/main/java/laundry/daeseda/controller/UserController.java:37-45 | 200 with exactly userNickname, userName, userPhone, userEmail, userPassword, in that order |
| `UserEndpoints.PatchUser` | daeseda-laundry/src/main/java/laundry/daeseda/controller/UserController.java:84-112 | for name, nickname and phone: success if and only if the count is positive; 200 "User updated successfully." then, 404 "User not found." otherwise |
| `UserEndpoints.DeleteUser` | daeseda-laundry/src/main/java/laundry/daeseda/controller/UserController.java:118-125 | success if and only if the count is positive; 204 "User deleted successfully." then, 404 "User not found." otherwise |
| `UserEndpoints.CountStatusesAgree` | daeseda-laundry/src/main/java/laundry/daeseda/controller/UserController.java:85-124 | the three updates answer alike, and succeed exactly when deletion would |
| `UserEndpoints.TextParam` | daeseda-laundry/src/main/java/laundry/daeseda/controller/UserController.java:172-173 | a missing or empty text parameter is replaced by its default, any other value is kept |
| `UserEndpoints.UserListRequest` | daeseda-laundry/src/main/java/laundry/daeseda/controller/UserController.java:168-181 | the paging request holds each given parameter unchanged, and 1, 10, 5, "n", "@" for those missing |
| `UserEndpoints.DefaultListingTargetsFirstPage` | daeseda-laundry/src/main/java/laundry/daeseda/controller/UserController.java:169-181 | with no parameters the request asks for page index 0 of size 10, with page window 5, type "n" and keyword "@" |
| `PageRequest.GetPageable` | daeseda-laundry/src/main/java/laundry/daeseda/dto/page/PageRequestDto.java:19-21 | the index is page - 1 (the largest int when page is the smallest int); the size is perPage; the sort passes through unchanged |
| `PageRequest.PageIndexInjective` | daeseda-laundry/src/main/java/laundry/daeseda/dto/page/PageRequestDto.java:20 | two requests get the same page index if and only if their page numbers are equal |
| `PageRequest.PageIndexMonotone` | daeseda-laundry/src/main/java/laundry/daeseda/dto/page/PageRequestDto.java:20 | above the smallest int, a larger page number gives a larger index |
| `PageRequest.FirstPageIsIndexZero` | daeseda-laundry/src/main/java/laundry/daeseda/dto/page/PageRequestDto.java:20 | the index is 0 if and only if the page number is 1 |
| `JavaLang.Sub` | daeseda-laundry/src/main/java/laundry/daeseda/dto/page/PageRequestDto.java:20 | Java int subtraction: the exact difference when it fits, otherwise shifted by 2^32 into range |
| `JavaLang.Split` | daeseda-laundry/src/main/java/laundry/daeseda/controller/UserController.java:39 | splitting on one character: the whole text when it does not occur; otherwise a prefix of the pieces without trailing empty pieces; no part contains the separator |
| `JavaLang.Pieces` | daeseda-laundry/src/main/java/laundry/daeseda/controller/UserController.java:39 | the pieces between separators contain no separator and join back to the text |
| `JavaLang.PiecesOfJoin` | daeseda-laundry/src/main/java/laundry/daeseda/controller/UserController.java:39 | cutting the join of separator-free parts gives the parts back, empty ones included |
| `JavaLang.SplitOfJoin` | daeseda-laundry/src/main/java/laundry/daeseda/controller/UserController.java:39 | splitting the join of non-empty separator-free parts gives the parts back |

## Left out

- The cache (Redis), the mail service and code generation are not modelled. The code is a parameter. Availability is the function parameter `isAvailable`, since the directory's duplicate check is not part of this model.
- The role guards, `@Valid` request validation and HTTP framework plumbing are not modelled.
- The check-then-get-then-delete sequence in `mailConfirm` is not atomic. Two concurrent confirmations can both succeed, and a delete between the check and the read makes the stored code null. The model is sequential, so neither is modelled.
- A null body to `mailConfirm` is not modelled. The endpoint has no null check, and the framework refuses a missing required body before the endpoint runs.
- A null code from the mail service is not modelled. The code is a non-null string.
- Text that cannot be parsed as an int for the listing's int parameters is not modelled. The framework rejects it before the endpoint runs. A parameter that is missing or empty is `None`.
- `PageRequest.of` rejects negative indexes and non-positive sizes. That validation is not modelled, so `GetPageable` states only the arguments it is given.
- The user service's listing, signup, logout and profile lookup are pure delegation and are not modelled. The elapsed-time printout in `getMyUserInfo` is not modelled either, because it uses a clock, floating point and console output.
- The order and review controllers are one-line delegation to services that are not part of this model. The board data holder is plain data.
- Codes never expire and failed attempts are not limited, because the code sets no expiry and counts no attempts.
- EmailVerification.MailAuthentication: assumes the mail service and the cache both succeed. The endpoint is declared to throw, so a failing `sendMessage` or cache write would leave nothing stored and answer with a server error; the model always stores the code and answers 200 on that branch.
- The verification code is printed to the console when it is issued and when it is confirmed. Console output is not modelled.
