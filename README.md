# contact-list in Dafny

A model of the contact manager "contact-list": a React client that keeps a list of phone
contacts, and an Express server (with a serverless twin) that stores them. The client's
add form and edit dialog validate a contact against a ten-row table of dialling codes. The
list panel filters, sorts and selects contacts. The manager loads contacts, adds, updates
and deletes them, exports the selection as vCard 3.0 text and imports vCard files. The
server checks every contact again, in single and bulk requests.

The Dafny modules follow the program's files:

| module | file | what it holds |
|---|---|---|
| `Text` | `text.dfy` | the JavaScript string operations the code relies on: `trim` and `\s`, `replace(/\D/g, '')`, ASCII case mapping, `includes`, decimal rendering, the e-mail pattern |
| `Countries` | `countries.dfy` | `countryCodes`, `find` on it, the longest-prefix code search |
| `FormRules` | `form_rules.dfy` | `validateContact` (the same in both forms), routing a server error to one field |
| `ContactForm` | `contact_form.dfy` | the add form: a `Form` class with its field handlers and submit |
| `EditContact` | `edit_contact.dfy` | the edit dialog: `resolveCountry`, the derived national number, a `Dialog` class |
| `VcfEncode` | `vcf_encode.dfy` | `toE164`, the card text, the export text, the download name |
| `VcfDecode` | `vcf_decode.dfy` | `parseVCF` (functions, and the imperative loops proved equal to them), `getInitials` |
| `Framing`, `RoundTrip` | `framing.dfy`, `round_trip.dfy` | what the decoder reads back from an export |
| `ContactManager` | `contact_manager.dfy` | the manager's handlers, as a `Manager` class over its state |
| `ContactList` | `contact_list.dfy` | the panel's filter, sort, counts and labels, and a `ListView` class |
| `ServerRules` | `server_rules.dfy` | the server's request checks, bulk delete and bulk create |
| `Agreement` | `agreement.dfy` | how the client's requests fare with the server's checks |

Server answers, the user's confirmation and the selected file are parameters of the
methods that wait for them. `None` (or `false`) stands for a failed call.

The two server files repeat the same contact checks: `server.js` and `api/index.js`
(lines 130-139, 179-193, 215-223, 242-278). `ServerRules` models them once, citing
`server.js`.

## Model

| member | source | states |
|---|---|---|
| Countries.TableShape | src/utils/constants.js:1-12 | ten rows; India `+91` first; national lengths 8 to 11; every code is `+` then digits; no two codes are equal |
| Countries.PrefixFree | src/utils/constants.js:1-12 | no code's digits begin another code's digits |
| Countries.Find | src/components/EditContactModal.jsx:15-22 | `find`: `None` exactly when no row matches the key; otherwise the first row that matches |
| Countries.Candidates | src/components/ContactManager.jsx:36-38 | keeps exactly the rows whose code digits begin the phone's digits |
| Countries.Longest | src/components/ContactManager.jsx:39-40 | the first element of the sort is a candidate whose code digits are at least as long as every other candidate's |
| Countries.LongestPrefixUnique | src/components/ContactManager.jsx:36-40 | the search finds a row exactly when some code's digits begin the phone's digits, and that row is then the only such row |
| FormRules.ValidateContact | src/components/ContactForm.jsx:32-62 | the errors equal the field-by-field rules; the result is true exactly when there is no error |
| FormRules.ValidIff | src/components/EditContactModal.jsx:77-107 | a form has no error if and only if: the trimmed name is not empty; the trimmed phone is only digits, of the country's length; the trimmed e-mail is empty or matches the pattern |
| FormRules.PhoneErrorPrecedence | src/components/ContactForm.jsx:42-51 | each phone message appears exactly under its condition: required, then digits only, then length |
| FormRules.PhoneMessagesDiffer | src/components/ContactForm.jsx:43-49 | the three phone messages are different strings |
| FormRules.TypedPhoneIsDigits | src/components/ContactForm.jsx:95-98 | a phone kept to the typed digits is unchanged by trimming and never draws the digits-only message |
| FormRules.RouteErrorOneField | src/components/ContactForm.jsx:78-86 | a server error lands in exactly one field: phone if it mentions `phone number`, else e-mail if it mentions `email`, else name |
| FormRules.BlankToNull | src/components/ContactForm.jsx:71 | `null` exactly for the empty string; otherwise the string itself |
| Text.EmailPatternShape | src/components/ContactForm.jsx:54-55 | an address the pattern accepts has no white space, at least five characters and exactly one `@`, not at the start |
| ContactForm.SelectedCountry | src/components/ContactForm.jsx:28-30 | always a table row: the row with the chosen code if there is one, else the first row |
| ContactForm.ValidPayloadShape | src/components/ContactForm.jsx:66-72 | a valid form sends a non-blank name and a phone that is the code, a space and exactly the country's number of digits |
| ContactForm.CheckAndBuild | src/components/ContactForm.jsx:64-72 | the errors of the form, and a body exactly when there is no error |
| ContactForm.Form.constructor | src/components/ContactForm.jsx:5-6 | empty fields, `+91`, no errors |
| ContactForm.Form.PhoneInput | src/components/ContactForm.jsx:95-98 | only the phone changes, to the digits of the input |
| ContactForm.Form.SelectCountry | src/components/ContactForm.jsx:90-93 | only the code changes |
| ContactForm.Form.Submit | src/components/ContactForm.jsx:64-88 | an invalid form shows its errors and sends nothing. A valid one sends its body, then resets on success or shows the routed server error |
| EditContact.FindCodeStep | src/components/EditContactModal.jsx:14-16 | finds a row exactly when some row's code is the trimmed code, and returns such a row |
| EditContact.FindDigitsStep | src/components/EditContactModal.jsx:17-21 | finds a row exactly when the code has digits and some row's code digits equal them |
| EditContact.FindIsoStep | src/components/EditContactModal.jsx:22-23 | finds a row exactly when some row's upper-cased country equals the upper-cased code |
| EditContact.FindPrefixStep | src/components/EditContactModal.jsx:24-31 | finds a row exactly when the phone has digits and some code's digits begin them |
| EditContact.ResolveCountry | src/components/EditContactModal.jsx:13-33 | `resolveCountry` always returns a table row |
| EditContact.ResolvePrecedence | src/components/EditContactModal.jsx:13-33 | the row comes from the first step that applies: exact code, code digits, ISO country, phone prefix, then the first row |
| EditContact.DeriveNational | src/components/EditContactModal.jsx:38-47 | the variable and its two reassignments compute the derived national number |
| EditContact.DerivedNationalFacts | src/components/EditContactModal.jsx:38-47 | the derived number ends the phone's digits. With at least the target length of digits it is the last target-length digits; with fewer, the digits without the leading code |
| EditContact.OpenForm | src/components/EditContactModal.jsx:35-53 | the opened form holds the name, the derived number, the resolved code and the e-mail |
| EditContact.ReopenCountry | src/components/EditContactModal.jsx:13-16 | a table code resolves to its own row |
| EditContact.ReopenNational | src/components/EditContactModal.jsx:38-47 | `<code> <national>` under its own country derives `national` back |
| EditContact.ReopenAdded | src/components/EditContactModal.jsx:35-56 | a contact saved by the add form reopens with exactly the name, number, code and e-mail it was entered with |
| EditContact.CheckAndBuild | src/components/EditContactModal.jsx:109-120 | the errors against the resolved country, and a payload exactly when there is no error |
| EditContact.Dialog.constructor | src/components/EditContactModal.jsx:6-9 | empty fields, `+91`, no errors, not submitting |
| EditContact.Dialog.Open | src/components/EditContactModal.jsx:35-56 | the form becomes the opened form of the contact and the errors are cleared |
| EditContact.Dialog.PhoneInput | src/components/EditContactModal.jsx:141-144 | only the phone changes, to the digits of the input |
| EditContact.Dialog.SelectCountry | src/components/EditContactModal.jsx:136-139 | only the code changes |
| EditContact.Dialog.Submit | src/components/EditContactModal.jsx:109-134 | the errors are always recomputed. Only a valid form that is not already submitting sends. Success closes; a failure routes the error. The submitting flag ends false |
| ContactManager.InferredCode | src/components/ContactManager.jsx:34-40 | a code exactly when some table code's digits begin the phone's digits, and then that row's code |
| ContactManager.LoadCodePrecedence | src/components/ContactManager.jsx:41 | the stored code wins, then the inferred code, then `+91` |
| ContactManager.LoadedCodeInTable | src/components/ContactManager.jsx:36-41 | without a stored code the loaded code is a table code |
| ContactManager.DisplayKeepsNational | src/components/ContactManager.jsx:42-45 | the shown phone's digits are the code's digits and then the stored phone's national number |
| ContactManager.LoadedPhoneLeadsWithCode | src/components/ContactManager.jsx:34-53 | a loaded contact's phone digits start with its code digits, and its national number is the stored one |
| ContactManager.Without | src/components/ContactManager.jsx:106 | keeps exactly the ids different from the removed one |
| ContactManager.WithoutAbsent | src/components/ContactManager.jsx:106 | removing an id the list lacks changes nothing |
| ContactManager.WithoutNoDuplicates | src/components/ContactManager.jsx:106 | removing keeps a list free of duplicates |
| ContactManager.ToggleFlips | src/components/ContactManager.jsx:103-111 | the toggle flips the membership of that id and of no other |
| ContactManager.ToggleNoDuplicates | src/components/ContactManager.jsx:103-111 | the toggle keeps the selection free of duplicates |
| ContactManager.ToggleTwice | src/components/ContactManager.jsx:103-111 | toggling an unselected id twice restores the selection |
| ContactManager.KeepSelected | src/components/ContactManager.jsx:131 | keeps exactly the contacts whose id is selected |
| ContactManager.DropSelected | src/components/ContactManager.jsx:89 | keeps exactly the contacts whose id is not selected |
| ContactManager.KeepDropPartition | src/components/ContactManager.jsx:89-131 | the exported and the remaining contacts together are the list, each as often |
| ContactManager.FiltersKeepOrder | src/components/ContactManager.jsx:89-131 | both filters keep the list's order |
| ContactManager.ReplaceById | src/components/ContactManager.jsx:294 | same length; each entry with the id is the updated contact, every other entry is unchanged |
| ContactManager.CombinedPhone | src/components/ContactManager.jsx:278 | the combined phone's digits are the code's digits and then the phone's digits |
| ContactManager.UpdateRequest | src/components/ContactManager.jsx:278-284 | name, code and e-mail pass through. The phone begins with the code and a space, and its digits are the code's and then the phone's |
| ContactManager.NormalizeForServer | src/components/ContactManager.jsx:213-218 | name and code pass through; the phone's digits are the code's and then the phone's; the e-mail is `null` exactly when empty |
| ContactManager.VcfExtensionIgnoresCase | src/components/ContactManager.jsx:187 | the check accepts a name exactly when its last four characters spell `.vcf` in any ASCII case |
| ContactManager.FromRows | src/components/ContactManager.jsx:222-228 | one contact per stored row, in the server's order |
| ContactManager.Manager.constructor | src/components/ContactManager.jsx:12-22 | no contacts, no selection, no delete dialog, not in bulk mode |
| ContactManager.Manager.FetchContacts | src/components/ContactManager.jsx:29-61 | on success the list is the loaded rows in order; on failure nothing changes |
| ContactManager.Manager.AddContact | src/components/ContactManager.jsx:63-83 | the stored contact goes to the front; nothing else changes |
| ContactManager.Manager.UpdateContact | src/components/ContactManager.jsx:276-300 | sends the update request. On success it replaces every entry with that id; on failure the list is unchanged |
| ContactManager.Manager.ToggleSelect | src/components/ContactManager.jsx:103-111 | the selection becomes the toggled selection; nothing else changes |
| ContactManager.SelectAllResult | src/components/ContactManager.jsx:113-119 | the new selection is empty or exactly the shown ids; it is empty exactly when the old selection is as long as the shown list, or nothing is shown |
| ContactManager.Manager.SelectAll | src/components/ContactManager.jsx:113-119 | the selection becomes the select-all result; nothing else changes |
| ContactManager.SelectAllComparesCounts | src/components/ContactManager.jsx:114 | for every selection and shown list: equal lengths clear the selection whichever ids either holds; after a press that selects, a second press clears |
| ContactManager.Manager.RequestDelete | src/components/ContactManager.jsx:271-274 | the delete dialog is about that one contact |
| ContactManager.Manager.BulkDelete | src/components/ContactManager.jsx:121-126 | with a selection, bulk mode and the bulk dialog; without one, nothing changes |
| ContactManager.Manager.ConfirmDelete | src/components/ContactManager.jsx:85-101 | after the server agrees: a bulk delete drops the selected contacts and clears the selection; a single delete drops that id. On refusal nothing changes |
| ContactManager.BulkDeleteEffect | src/components/ContactManager.jsx:87-91 | every selected contact is gone, every other contact stays, in order |
| ContactManager.Manager.CancelDelete | src/components/ContactManager.jsx:246-249 | the dialog closes and bulk mode ends |
| ContactManager.Manager.ExportContacts | src/components/ContactManager.jsx:128-177 | nothing without a selection. Otherwise the selected contacts' cards in list order, under the download name, and the selection is cleared |
| ContactManager.ExportCards | src/components/ContactManager.jsx:143-162 | the loop's text is the export text of the contacts |
| ContactManager.Manager.ImportFile | src/components/ContactManager.jsx:183-244 | stops on a wrong extension, an empty parse or a declined confirmation. Otherwise sends the normalised records of `parseVCF` (its own eight-code table); the stored ones go in front of the list |
| VcfEncode.National | src/components/ContactManager.jsx:133-141 | only digits. When the code has digits and the phone's digits start with them, the code's digits followed by the result are the phone's digits; otherwise the result is the phone's digits |
| VcfEncode.ToE164 | src/components/ContactManager.jsx:133-141 | empty exactly when the phone has no digit |
| VcfEncode.ToE164Shape | src/components/ContactManager.jsx:133-141 | a non-empty result is `+`, the code's digits, then the national number, digits only |
| VcfEncode.CardTextIsJoin | src/components/ContactManager.jsx:149-160 | the `+=` sequence yields the card's lines, each ended by CRLF |
| VcfEncode.BuildCard | src/components/ContactManager.jsx:143-161 | the card of a contact: header, UID, `N`, `FN`, TEL only with digits, EMAIL only when not blank, end |
| VcfEncode.AssembleCard | src/components/ContactManager.jsx:149-160 | the accumulated text is the card text of the computed fields |
| VcfEncode.ExportTextAppend | src/components/ContactManager.jsx:143-162 | exporting two runs of contacts is exporting each run |
| VcfEncode.AppendCard | src/components/ContactManager.jsx:143-162 | one more card extends the export text of the contacts so far |
| VcfEncode.Sanitize | src/components/ContactManager.jsx:169 | same length; letters and digits kept, every other character `_` |
| VcfEncode.SanitizeIdempotent | src/components/ContactManager.jsx:169 | the sanitised name holds only letters, digits and `_`, and sanitising again changes nothing |
| VcfEncode.ExportFileName | src/components/ContactManager.jsx:168-170 | `contacts_<n>.vcf` unless exactly one is selected. Then, character by character, the contact's name with every character that is not an ASCII letter or digit turned into `_`, then `.vcf`, which is `Sanitize` of the name; none when no contact is left |
| VcfDecode.NonBlankFilters | src/utils/helpers.jsx:33 | the filter keeps exactly the pieces that are not blank, each as often as it occurs |
| Framing.NonBlankAppend | src/utils/helpers.jsx:33 | filtering two runs of pieces is filtering each run, so the filter keeps the order |
| VcfDecode.ColonValueFirstColon | src/utils/helpers.jsx:51 | on one line, the captured value is the text after the first `:` |
| VcfDecode.FirstPattern | src/utils/helpers.jsx:69-78 | the first matching entry in table order (no earlier entry matches), or none exactly when no entry matches |
| VcfDecode.SplitPhoneShape | src/utils/helpers.jsx:53-92 | a `+`-led code always. Without `+`, `+91` and the value. A matched value or an unmatched one of more than ten digits splits into code and number that rejoin to the value. Otherwise `+91` |
| VcfDecode.SplitPhone | src/utils/helpers.jsx:53-92 | the pattern loop with `break` computes the split |
| VcfDecode.ScanLineFields | src/utils/helpers.jsx:43-101 | each field changes only on the line kind that sets it |
| VcfDecode.ScanLine | src/utils/helpers.jsx:43-101 | the three `if`s of one line compute the scan step |
| VcfDecode.ScanCard | src/utils/helpers.jsx:35-102 | the line loop computes the scan of the card |
| VcfDecode.ParseVcfWith | src/utils/helpers.jsx:30-115 | the card loop computes the decoded records, in card order |
| VcfDecode.ParseVcf | src/utils/helpers.jsx:30-115 | `parseVCF`: the card loop with the decoder's own eight-code table computes the decoded records |
| VcfDecode.DecodeCardsWith | src/utils/helpers.jsx:104-111 | at most one record per card |
| VcfDecode.DecodedRecordsComplete | src/utils/helpers.jsx:104-111 | every record has a name, a phone and a `+`-led code |
| VcfDecode.DecodeCardsAppend | src/utils/helpers.jsx:35-112 | decoding two runs of cards decodes each run |
| VcfDecode.LastNameWins | src/utils/helpers.jsx:46-48 | the last `FN:` line gives the name |
| VcfDecode.LastPhoneWins | src/utils/helpers.jsx:50-94 | the last TEL line with a `:` gives the phone and its code |
| VcfDecode.LastEmailWins | src/utils/helpers.jsx:96-101 | the last EMAIL line with a `:` gives the e-mail |
| VcfDecode.NoEmailLineGivesEmpty | src/utils/helpers.jsx:109 | a card without an EMAIL line yields `''` |
| VcfDecode.GetInitials | src/utils/helpers.jsx:1-8 | at most two characters |
| VcfDecode.InitialsAreWordStarts | src/utils/helpers.jsx:1-8 | the initials are the first two upper-cased word-initial characters |
| Framing.CardsOfExport | src/utils/helpers.jsx:33 | the cards cut from an export are exactly the contacts' card bodies |
| RoundTrip.DecodeExport | src/utils/helpers.jsx:30-115 | decoding an export with any dial table reads each contact back (name, the table's split of its number, trimmed e-mail), in order |
| RoundTrip.CountryPatternsPrefixFree | src/utils/constants.js:1-12 | the table built from the country rows is prefix-free |
| RoundTrip.ExportRoundTrip | src/utils/helpers.jsx:58-78 | with the corrected table, importing an export gives back every contact's name, code, national number and trimmed e-mail, in order |
| RoundTrip.RereadAllKnown | src/utils/helpers.jsx:58-88 | with any well-formed prefix-free table, every contact whose code is in the table reads back with its own code and national number, in order |
| RoundTrip.ParserPatternsWellFormed | src/utils/helpers.jsx:58-67 | each of the eight entries is `+` and digits and spans exactly its code's digits |
| RoundTrip.ParserPatternsPrefixFree | src/utils/helpers.jsx:58-67 | no code of the eight begins a different one |
| RoundTrip.ParserPatternsInTable | src/utils/helpers.jsx:58-67 | each of the eight entries is a row of `countryCodes`, with that row's national length |
| RoundTrip.ParserRoundTrip | src/utils/helpers.jsx:30-115 | as written, importing an export gives back every contact whose code is one of the eight with its name, code, national number and trimmed e-mail, in order |
| RoundTrip.ParserTableSplitsUae | src/utils/helpers.jsx:58-88 | as written, a nine-digit UAE number comes back as code `+97` with `1` glued to the front of the number |
| RoundTrip.ParserTableMissesSingapore | src/utils/helpers.jsx:58-88 | as written, an eight-digit Singapore number comes back under `+91` with `65` in front of the number |
| ContactList.Filter | src/components/ContactList.jsx:27-31 | no longer than the list; holds exactly the contacts that match |
| ContactList.FilterKeepsOrder | src/components/ContactList.jsx:27-31 | the filter keeps the list's order |
| ContactList.EmptyQueryKeepsAll | src/components/ContactList.jsx:27-31 | an empty query keeps the whole list |
| ContactList.FilterCounts | src/components/ContactList.jsx:27-31 | every copy of a matching contact survives and no copy of another |
| ContactList.Flipped | src/components/ContactList.jsx:43-45 | the toggle always changes the order |
| ContactList.FlipTwice | src/components/ContactList.jsx:43-45 | toggling twice restores it |
| ContactList.BeforeTotal | src/components/ContactList.jsx:33-41 | any two contacts are comparable in either direction |
| ContactList.BeforeTransitive | src/components/ContactList.jsx:33-41 | the comparison is transitive in either direction |
| ContactList.Insert | src/components/ContactList.jsx:33-41 | inserting into a sorted list gives a sorted list with one more copy of the element |
| ContactList.Sort | src/components/ContactList.jsx:33-41 | the result is sorted in the chosen direction and is a permutation of the input |
| ContactList.SortKeepsContacts | src/components/ContactList.jsx:33 | the sorted copy has the same length and the same contacts |
| ContactList.CountLabel | src/components/ContactList.jsx:65 | singular exactly for one match |
| ContactList.TotalMeansHidden | src/components/ContactList.jsx:66-68 | when `of <total>` shows, the filter has hidden at least one contact |
| ContactList.ButtonsEnabled | src/components/ContactList.jsx:25 | export and bulk delete are enabled exactly with a selection |
| ContactList.Ids | src/components/ContactList.jsx:74 | one id per shown contact, in display order |
| ContactList.SelectAllLabel | src/components/ContactList.jsx:75 | `Deselect All` exactly when the selection is as long as the shown list |
| ContactList.ListView.constructor | src/components/ContactList.jsx:22 | ascending at first |
| ContactList.ListView.ToggleSortOrder | src/components/ContactList.jsx:43-45 | the order flips |
| ContactList.ListView.SelectAllShown | src/components/ContactList.jsx:74 | the manager's select-all result for the shown ids in display order; the contacts, the delete target and bulk mode are unchanged |
| ServerRules.StoredEmail | server.js:194 | `null` exactly for a missing or blank e-mail; otherwise the non-empty trimmed e-mail |
| ServerRules.CheckContact | server.js:176-186 | accepted exactly with the three fields and an acceptable e-mail, storing the fields and the trimmed e-mail. Every rejection is a 400; the required-fields message comes exactly when a field is missing |
| ServerRules.StoredEmailShape | server.js:181-194 | a stored e-mail is `null` or trimmed, space-free and at least five characters |
| ServerRules.CheckUpdate | server.js:240-256 | the same checks first; then 404 for a contact the user does not own; accepted exactly when both pass |
| ServerRules.RegisterError | server.js:80-86 | no error exactly with all three fields and a password of at least six characters; the all-fields message exactly when a field is missing |
| ServerRules.PositiveIds | server.js:297 | keeps exactly the parsed ids above zero |
| ServerRules.PositiveIdsCounts | server.js:297 | each id above zero is kept as often as it is listed; everything else is dropped |
| ServerRules.PositiveIdsAppend | server.js:297 | filtering two runs of ids is filtering each run, so the kept ids stay in list order |
| ServerRules.Placeholders | server.js:304 | `?, ?, …`: length `3n - 2` and the repeating `?`, `,`, space pattern |
| ServerRules.RemovedBound | server.js:307-308 | the delete removes no more rows than ids are listed |
| ServerRules.BulkDeleteAsWritten | server.js:292-314 | rejects a missing or empty list, then a list without valid ids. Otherwise reports the removed count and the first that-many valid ids |
| ServerRules.BulkDeleteReportsUndeleted | server.js:313 | ids 1 and 2 with only 2 owned: id 1 is reported deleted |
| ServerRules.OwnedOnce | api/db-postgres.js:176-184 | exactly the listed owned ids, each once |
| ServerRules.DistinctCard | api/db-postgres.js:184 | a list without repetitions has as many entries as distinct ones |
| ServerRules.BulkDelete | server.js:292-314 | the same rejections. Otherwise reports exactly the owned listed ids, each once, as many as rows were removed |
| ServerRules.Screened | server.js:335-358 | each contact gives one row or one message |
| ServerRules.ScreenContacts | server.js:335-358 | the loop's rows and messages are the screening of all contacts |
| ServerRules.AcceptedRows | server.js:352-357 | no more rows than contacts |
| ServerRules.ScreenedPartition | server.js:335-358 | the rows are the accepted contacts' rows in order; each message names a rejected contact's 1-based position |
| ServerRules.BulkCreate | server.js:327-395 | rejects a missing or empty list; then no valid contact; otherwise stores the valid rows and reports counts and messages |
| ServerRules.ImportCounts | server.js:389-395 | skipped is the number of messages; imported plus skipped is the input size; a rejected import lists one message per contact |
| ServerRules.NoAcceptedRows | server.js:360-365 | without accepted rows every contact was rejected |
| Agreement.ClientEmailStoredAsSent | server.js:181-194 | an e-mail the form accepted is stored exactly as the client sent it |
| Agreement.AddFormAccepted | server.js:176-203 | a body the add form sends is accepted and stored with the fields as sent |
| Agreement.EditFormAccepted | server.js:240-267 | a request the edit dialog and the update handler send is accepted and stored with the fields as sent |
| Agreement.ImportedPassRequired | src/components/ContactManager.jsx:213-218 | every contact `parseVCF` gives the import has the three required fields once normalised, so the server can skip it only for its e-mail |

## Left out

- Rendering, dropdown visibility, hover and copy-to-clipboard state, alerts, the detail
  modal, `highlightText` and `getGreeting` (display only, or clock-dependent).
- Network calls, the database, SQL, bcrypt and JWT: each server answer is a parameter, and
  a thrown error is `None` or an error message. Ids come from the database and are taken
  as given.
- The register handler's database lookup ("Email already registered") and token
  generation; only its field checks are modelled.
- Exceptions that become status 500 on the server are not modelled.
- Case mapping is ASCII-only. JavaScript's `toLowerCase`/`toUpperCase` map all of Unicode.
- `localeCompare` is modelled as scalar-value order on the lower-cased names. Locale
  collation is not modelled.
- Strings are sequences of Unicode scalar values, while JavaScript strings are sequences
  of UTF-16 code units. The two agree on text without characters outside the Basic
  Multilingual Plane; lengths, indices and per-character replacement differ on text with
  such characters (one scalar value, two code units). The members this touches follow.
- VcfEncode.Sanitize: writes one `_` per scalar value; JavaScript writes one per UTF-16
  unit, so `"😀"` gives `"__"` there and `"_"` here.
- VcfEncode.SanitizeIdempotent: stated over scalar values, as Sanitize.
- VcfEncode.ExportFileName: the stated length `|name| + 4` counts scalar values, not UTF-16
  units, for the same reason.
- VcfDecode.GetInitials: `word[0]` and `slice(0, 2)` take UTF-16 units in JavaScript and
  scalar values here; `"😀 Bo"` gives a lone surrogate and `B` there, `😀B` here.
- VcfDecode.InitialsAreWordStarts: stated over scalar values, as GetInitials.
- ServerRules.RegisterError: the six-character password minimum counts scalar values,
  where `password.length` counts UTF-16 units; `"ab😀😀"` passes in JavaScript and not
  here.
- VcfDecode.SplitPhone: the `length > 10` test and the `substring` cut points count scalar
  values, not UTF-16 units; they differ only for a TEL value with characters outside the
  Basic Multilingual Plane. VcfDecode.SplitPhoneShape is stated the same way.
- `ContactList.Sort` is an insertion sort, specified as sorted and a permutation. It does
  not model the stability or the comparisons of the engine's `Array.prototype.sort`.
- The stored e-mail is `""` on the client for both `null` and `''`; no client code tells
  them apart.
- `server.js`'s single create (lines 197-203) answers with a `countryCode` key, but the
  client reads `country_code` (ContactManager.jsx:75). `ContactManager.Manager.AddContact`
  takes the row shape the serverless store returns (`RETURNING ... country_code`).
- `api/db-postgres.js`'s own bulk delete filters ids with `!isNaN` only. It runs after
  the handler's `id > 0` filter, so it changes nothing; `ServerRules.BulkDelete` models
  the combination.
- EditContact.Dialog.Submit: the `!isSubmitting` guard is modelled, but every operation
  leaves the flag false, so the double-submit branch is never reached. Asynchronous
  interleaving of a second submit while the first request is pending is not modelled.
- Agreement.AddFormAccepted: requires a non-empty country code. The form only offers
  table codes, but an empty code would pass the form (it falls back to India's length)
  and be refused by the server.

## Findings

| source | as written | input that shows it | evidently intended | confidence | as-written member | corrected member |
|---|---|---|---|---|---|---|
| src/utils/helpers.jsx:58-67 | the decoder's dial table has eight codes and no `+971` | a UAE contact `+971` / `501234567` exports as `+971501234567` and imports as code `+97`, phone `1501234567` | every code the forms offer (constants.js) reads back with its national number | not executed | RoundTrip.ParserTableSplitsUae | RoundTrip.ExportRoundTrip |
| src/utils/helpers.jsx:58-67 | the decoder's dial table has no `+65` | a Singapore contact `+65` / `81234567` exports as `+6581234567` and imports as code `+91`, phone `6581234567` | as above | not executed | RoundTrip.ParserTableMissesSingapore | RoundTrip.ExportRoundTrip |
| server.js:313 | `deletedIds` is the first `changes` valid ids | ids `[1, 2]` where the user owns only 2: one row deleted, `deletedIds` is `[1]` | the ids actually deleted, as the serverless store reports with `RETURNING id` | not executed | ServerRules.BulkDeleteReportsUndeleted | ServerRules.BulkDelete |
