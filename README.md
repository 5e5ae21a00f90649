# Payment records: a verified model of the validation and list logic

The repository is a browser admin screen for payment records. Each record has
an id, an amount, a status and an email. Most of it is view markup. This
project models the three pieces of logic in it:

- **The add-payment form's rules** (`src/app/main/DataTableDemo.tsx`). Each
  field has a `required` rule. The amount must also match `^\d+(\.\d+)?$`
  and the email `^\S+@\S+$`. The submit handler has its own empty-amount
  guard. The status comes from a select with four values.
- **The client's payment list** (`src/app/main/DataTableDemo.tsx`). It is a
  list of records with three actions: submit (append), delete (remove every
  record with the row's id) and the delete toast's undo (put the deleted
  record back, at the end of the *current* list). Each action also writes
  the new list to local storage.
- **The server actions** (`src/app/actions.ts`). `createPayment` rejects any
  status outside `pending`, `processing`, `success`, `failed` before it
  writes anything. Otherwise it stores the record unchanged. `getPayments`
  lists every row. `deletePayment` removes a row by id.

Modules, one per concern:

- `Wrappers`: `Option` and `Result`.
- `Payments`: the `Payment` record and the client's `Status` values. It also
  holds `WithoutId`, the remove-by-id filter that both the client delete and
  the server delete use, with its lemmas (order, membership, count, undo).
- `Validators`: the two regular expressions as predicates, each with a lemma
  that characterises exactly what it accepts.
- `PaymentForm`: the form values, the per-field rules, and the record a
  valid form becomes.
- `DataTable`: class `PaymentTable` with the displayed list `data`, the
  ghost copy `saved` in local storage, the alert banner and the dialog flag.
  Its methods are the submit, delete and undo actions.
- `Actions`: the status list, the gate, the error message, and class
  `PaymentStore` whose `rows` field stands for the datastore table.

### How the model reads the source

- A regular expression is modelled by what it denotes. For example,
  `^\S+@\S+$` holds when the string splits at some `@` into two non-empty
  runs of non-space characters. `\s` is JavaScript's set of white-space and
  line-terminator characters.
- In the form library, `required` fails on the empty string only. A
  `pattern` rule is tested only on a non-empty value. Each field reports its
  first failing rule, and the submit handler runs only when no field
  reports an error. So the submit handler's own empty-amount guard cannot be
  reached through the form: the amount's `required` rule rejects the empty
  string first, with the message "Amount is required" (no full stop).
  `OnSubmit` models the handler with its guard. `HandleSubmit` models the
  form calling it. `AcceptedFormHasAmount` states why the guard is dead.
- The client never calls the server actions. No code path writes to the
  store or refreshes the list from it: add, delete and undo change only the
  component's state and local storage. Undo-of-delete appends the record to
  the current list; it does not re-create it in the store.
- The code's error message for a rejected status is in Indonesian:
  "Status tidak valid: <value>. Harus salah satu dari pending, processing,
  success, failed". The model uses that text.
- Ids are not checked for uniqueness on the client. A delete removes every record
  that carries the row's id, and undo puts back only the clicked record.
  With unique ids, a delete removes exactly one record, and delete followed
  by undo gives the same records with the deleted one moved to the end.

## Model

| member | source | states |
|---|---|---|
| `Payments.StatusName` | src/app/main/DataTableDemo.tsx:62 | each of the four status values is a non-empty string |
| `Payments.WithoutId` | src/app/main/DataTableDemo.tsx:184-186 | the filtered list is never longer than the original |
| `Payments.WithoutIdMembers` | src/app/main/DataTableDemo.tsx:184-186 | a record is in the filtered list iff it was in the list and its id differs from the target |
| `Payments.WithoutIdRemovesAll` | src/app/main/DataTableDemo.tsx:184-187 | after delete no record carries the deleted id |
| `Payments.WithoutIdConcat` | src/app/main/DataTableDemo.tsx:184-186 | the filter works piecewise over concatenation, so it keeps relative order |
| `Payments.WithoutAbsentId` | src/app/main/DataTableDemo.tsx:184-186 | deleting an id no record carries leaves the list unchanged |
| `Payments.WithoutIdIdempotent` | src/app/main/DataTableDemo.tsx:184-186 | deleting the same id twice is the same as deleting it once |
| `Payments.WithoutIdLength` | src/app/main/DataTableDemo.tsx:184-187 | the length drops by exactly the number of records that carried the id |
| `Payments.UniqueDeleteRemovesOne` | src/app/main/DataTableDemo.tsx:184-187 | with unique ids, deleting a present record's id removes exactly one record |
| `Payments.KeptAt` | src/app/main/DataTableDemo.tsx:184-186 | a kept record sits at index "number of kept records before it" in the result |
| `Payments.WithoutIdKeepsOrder` | src/app/main/DataTableDemo.tsx:184-186 | any two kept records keep their relative order |
| `Payments.DeleteAt` | src/app/main/DataTableDemo.tsx:184-186 | deleting an id only the record at k carries is removing index k |
| `Payments.DeleteThenUndo` | src/app/main/DataTableDemo.tsx:184-195 | with unique ids, delete then undo moves the record to the end and gives back the same multiset of records |
| `Payments.UndoMovesToEnd` | src/app/main/DataTableDemo.tsx:193-195 | a concrete list where undo does not restore the original position |
| `Validators.AmountPattern` | src/app/main/DataTableDemo.tsx:372 | an accepted amount is non-empty and starts and ends with a digit |
| `Validators.EmailPattern` | src/app/main/DataTableDemo.tsx:422 | an accepted email has at least three characters and neither starts nor ends with white space |
| `Validators.AmountPatternIsDecimalText` | src/app/main/DataTableDemo.tsx:372 | the amount pattern accepts exactly the non-empty digit texts with at most one '.', starting and ending with a digit |
| `Validators.EmailPatternCharacterised` | src/app/main/DataTableDemo.tsx:422 | the email pattern accepts exactly the white-space-free texts with an '@' at an inner position; more '@' are allowed |
| `Validators.AmountExamples` | src/app/main/DataTableDemo.tsx:372 | "", ".5", "5.", "-1", "1e3", "1.2.3" are rejected; "12.5", "007", "100" are accepted |
| `Validators.EmailAccepted` | src/app/main/DataTableDemo.tsx:422 | "a@b.com", "a@b@c" and "@@@" are accepted |
| `Validators.EmailRejected` | src/app/main/DataTableDemo.tsx:422 | "", "@b", "a@", "a b@c" and "ab.com" are rejected |
| `PaymentForm.IdError` | src/app/main/DataTableDemo.tsx:352 | the id field reports "Payment ID is required" exactly on the empty id, and nothing otherwise |
| `PaymentForm.AmountError` | src/app/main/DataTableDemo.tsx:372 | the amount field reports "Amount is required" iff the text is empty, "Invalid amount" iff non-empty and not decimal, nothing iff decimal |
| `PaymentForm.StatusError` | src/app/main/DataTableDemo.tsx:393-406 | the status rule never fails, because the select holds one of four non-empty values |
| `PaymentForm.EmailError` | src/app/main/DataTableDemo.tsx:422 | the email field reports "Email is required" iff empty, "Invalid email address" iff non-empty and rejected by the pattern, nothing iff space-free with an inner '@' |
| `PaymentForm.FormErrors` | src/app/main/DataTableDemo.tsx:349-436 | the errors the form library collects never name the status field |
| `PaymentForm.FormErrorsInFieldOrder` | src/app/main/DataTableDemo.tsx:349-436 | each field is reported at most once, in the form's field order |
| `PaymentForm.DefaultFormErrors` | src/app/main/DataTableDemo.tsx:236-241 | submitting the untouched form reports exactly the id, amount and email "required" messages |
| `PaymentForm.ToPayment` | src/app/main/DataTableDemo.tsx:299-304 | the record keeps the form's id, amount text and email, and its status string passes the server's status check |
| `PaymentForm.FormErrorsCases` | src/app/main/DataTableDemo.tsx:349-436 | the form is accepted iff id is non-empty, the amount is decimal and the email matches; each field's reported message is that field's first failing rule |
| `PaymentForm.AcceptedFormHasAmount` | src/app/main/DataTableDemo.tsx:289-297 | a form that passes its rules has a non-empty decimal amount, so the handler's empty-amount guard is not reached through the form |
| `DataTable.PaymentTable.constructor` | src/app/main/DataTableDemo.tsx:228-234 | the list starts empty, the alert hidden and the dialog closed |
| `DataTable.PaymentTable.SetAndSave` | src/app/main/DataTableDemo.tsx:187-188 | the list is replaced and the same list is saved; nothing else changes |
| `DataTable.PaymentTable.OnSubmit` | src/app/main/DataTableDemo.tsx:289-310 | an empty amount shows the "Amount is required." error and leaves list, saved copy and dialog unchanged; otherwise exactly the form's record is appended at the end, the saved copy equals the new list and the dialog closes |
| `DataTable.PaymentTable.HandleSubmit` | src/app/main/DataTableDemo.tsx:347 | returns the field errors; with errors nothing changes, without them the form's record is appended and saved |
| `DataTable.PaymentTable.Delete` | src/app/main/DataTableDemo.tsx:180-188 | the list becomes the filtered list, no record has the deleted id, the saved copy equals it |
| `DataTable.PaymentTable.UndoDelete` | src/app/main/DataTableDemo.tsx:193-195 | the deleted record is appended to the current list, which is saved; earlier records are untouched |
| `Actions.IsValidStatus` | src/app/actions.ts:6-20 | a status is valid iff it is exactly "pending", "processing", "success" or "failed" |
| `Actions.InvalidStatusMessage` | src/app/actions.ts:21 | the message starts with the fixed prefix, followed by the rejected value itself |
| `Actions.PaymentStore.constructor` | src/app/actions.ts:9 | the store starts with the rows already in the table |
| `Actions.ValidStatusesAreStatusNames` | src/app/actions.ts:6-7 | the server's allowed list is the client's four status values in the same order; a string is allowed iff it is one of them |
| `Actions.StatusCheckIsExact` | src/app/actions.ts:20 | "Pending", " pending", "done" and "" are rejected: no case folding, no trimming |
| `Actions.JoinedStatuses` | src/app/actions.ts:21 | joining the allowed list gives "pending, processing, success, failed", in declaration order |
| `Actions.InvalidStatusMessageText` | src/app/actions.ts:21 | the message is the Indonesian prefix, the rejected value, then the allowed values joined by ", " in declaration order |
| `Actions.InvalidStatusMessageInjective` | src/app/actions.ts:21 | two messages are equal iff the rejected values are, so the message names the value |
| `Actions.PaymentStore.GetPayments` | src/app/actions.ts:11-17 | one record per row, in store order, every field unchanged; when the store invariant holds every returned status is an allowed one |
| `Actions.PaymentStore.CreatePayment` | src/app/actions.ts:19-27 | an invalid status fails with its message and leaves the rows unchanged; a valid one appends exactly the input and returns it; the invariant "every stored status is allowed" is preserved |
| `Actions.PaymentStore.DeletePayment` | src/app/actions.ts:29-33 | the rows with the id are removed, no row has it afterwards, the invariant is preserved |
| `Actions.DeleteUndoesCreate` | src/app/actions.ts:24-33 | deleting the id of a just-created record with a new id gives back the rows before the create |

## Left out

- Prisma and the datastore (actions.ts:9, 12, 24, 30): the store is a sequence field, and calls are synchronous and never fail.
- Actions.PaymentStore.DeletePayment: does not model Prisma's not-found error; it removes the rows with the id, which is none when the id is absent. It also returns nothing, whereas `deletePayment` returns the deleted row.
- Actions.PaymentStore.CreatePayment: takes the amount as its decimal text, whereas `createPayment` takes `amount: number`; the numeric value is not modelled on the server either.
- Actions.PaymentStore.CreatePayment: does not model the store's unique-id constraint; a valid record is always appended.
- Actions.PaymentStore.GetPayments: returns rows in insertion order, whereas `findMany` without an ordering promises none.
- Loading the saved list from local storage on mount, and JSON encoding (DataTableDemo.tsx:245-250): browser I/O. The saved copy is a ghost field, and the constructor takes what storage already holds.
- `parseFloat` and currency formatting (DataTableDemo.tsx:126-131, 301): floating point. A record's amount is kept as the decimal text the form held.
- The browser's clean-up of a `type="number"` input's value: the model takes the text the form library sees.
- Strings are sequences of Unicode scalar values, not UTF-16 code units as in JavaScript.
- Sorting, email filtering, column visibility, row selection and the selected-row count (DataTableDemo.tsx:110, 252-271, 331-333, 451-463, 511-512): these live inside the table library, which is not part of this model. The files hold no pagination or id-generation code.
- Toasts, date and time formatting, the alert's dismissal timer, the clipboard, printing, the form `reset()` and the no-op "Undo copy" and "Print cancelled" actions (DataTableDemo.tsx:139-152, 166-174, 207-215, 295, 309-313): UI side effects.
- JSX rendering and dialog and dropdown wiring.
- Several actions in flight at once: the model runs each action to completion.
