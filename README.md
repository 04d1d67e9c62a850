# MailChimp signup field for user-defined forms — a Dafny model

A SilverStripe user-defined form can carry a "MailChimp Signup Field". When
the form is submitted, the field turns the submission into a MailChimp list
member: it looks up the e-mail address, first and last name and any mapped
merge fields in the submitted data, splits the configured tag string, creates
the member on the chosen list, and — when "Update Contact" is on and the create
call answered with status 400 — updates the existing member instead. It
returns the message "Subscribed" or "Not subscribed" after the last call made,
or `false` when it did nothing. For the configuration screen it also lists
the account's lists.

The model has four modules:

- `Wrappers` (`wrappers.dfy`): `Option`, standing for a PHP value that may be `null`.
- `Tags` (`tags.dfy`): the tag split. `PregSplit` follows the regular-expression
  engine on the pattern `\s*,\s*` with `PREG_SPLIT_NO_EMPTY`. It finds the
  leftmost match, with both whitespace runs greedy. `SplitReference` cuts the
  string at commas, trims the whitespace next to each comma and drops empty
  segments. `PregSplitIsReference` proves the two equal on every string.
- `MailChimp` (`mailchimp.dfy`): JSON values, the `Call`s the field can make, and
  `Client`. The client stands for the PHP API object. It logs every call and
  remembers whether the last one succeeded. A `server` function stands for the
  network. It answers each call with a decoded body and a success flag.
- `EditableMailChimpField` (`field.dfy`): the configuration, the merge-field
  construction, the two payloads, the submission handler `GetValueFromData` and
  `GetLists`.

`GetValueFromData` and `GetLists` are methods written the way the PHP is. They
build the merge-field map in a loop and append list options one by one. They
change the tag entry of the payload in place and call the client object.
Their postconditions tie the calls made and the value returned to the
specification functions `CreatePayload`, `UpdatePayload`, `MergeFieldsFor`
and `PregSplit`. Lemmas then prove the properties of those functions.

Behaviour worth knowing:

- Tags: only whitespace next to a comma is removed, so `" a , b "` gives
  `[" a", "b "]` (`Tags.OuterWhitespaceKept`).
- E-mail address: when the configured e-mail field is missing from the
  submission, `null` is sent as the address and the subscriber hash is taken of
  the empty string.
- A skipped submission returns `false` (`FieldValue.False`) and makes no call.
- Truth tests: `ListID`, `FirstNameField` and `LastNameField` are tested with
  PHP's truth test, so the string `"0"` counts as unset. `TagsToAssign` is
  compared with `''`, so `"0"` yields the tag `"0"`.

## Model

| member | source | states |
|---|---|---|
| `Tags.FindMatch` | code/extensions/EditableMailChimpField.php:216 | the match found is the leftmost start of whitespace-comma-whitespace at or after the position; none means no match starts anywhere after it |
| `Tags.PregSplit` | code/extensions/EditableMailChimpField.php:216 | no tag produced by the split is empty and no tag contains a comma |
| `Tags.RawSplit` | code/extensions/EditableMailChimpField.php:216 | cutting at commas gives at least one segment and no segment holds a comma |
| `Tags.JoinRawSplit` | code/extensions/EditableMailChimpField.php:216 | joining the comma-cut segments with commas gives the original string back |
| `Tags.RawSplitJoin` | code/extensions/EditableMailChimpField.php:216 | cutting a comma-join of comma-free segments gives exactly those segments |
| `Tags.TrimAtCommas` | code/extensions/EditableMailChimpField.php:216 | one result per segment; segment `i` is a contiguous piece of the original with only whitespace cut off, cut at the front only when a comma precedes it and at the back only when a comma follows it; no whitespace is left beside a comma |
| `Tags.DropEmpty` | code/extensions/EditableMailChimpField.php:216 | no empty string remains, and every non-empty string occurs in the result exactly as often as in the input |
| `Tags.PregSplitIsReference` | code/extensions/EditableMailChimpField.php:216 | for every string the regular-expression split equals: segments between commas, whitespace next to each comma removed, empty segments dropped, in order |
| `Tags.SplitExample` | code/extensions/EditableMailChimpField.php:216 | `"a, b ,, c"` splits into `["a", "b", "c"]` |
| `Tags.OuterWhitespaceKept` | code/extensions/EditableMailChimpField.php:216 | `" a , b "` splits into `[" a", "b "]`: whitespace at the ends of the whole string is kept |
| `EditableMailChimpField.Lookup` | code/extensions/EditableMailChimpField.php:219-226 | reading a submitted field gives its value, or null exactly when the key is absent |
| `EditableMailChimpField.TagList` | code/extensions/EditableMailChimpField.php:213-217 | the tags are the split of `TagsToAssign` whether or not the emptiness test is taken; an empty setting gives no tags; no tag is empty or holds a comma |
| `EditableMailChimpField.NameFields` | code/extensions/EditableMailChimpField.php:221-227 | `FNAME` is present exactly when the first-name field is set and holds that field's submitted value; likewise `LNAME`; no other key |
| `EditableMailChimpField.LastWriter` | code/extensions/EditableMailChimpField.php:229-233 | finds the last row that targets a key and whose form field was submitted; none when no row does |
| `EditableMailChimpField.MergeFieldsLastWriteWins` | code/extensions/EditableMailChimpField.php:221-233 | `ApplyMergeFields` applies the rows one `WriteRow` at a time, and `MergeFieldsFor` starts it from `NameFields`; for any start map and rows, a merge key is present iff it was in the start map or some submitted row targets it; it holds the last such row's value, otherwise its start value |
| `EditableMailChimpField.RowOverridesFirstName` | code/extensions/EditableMailChimpField.php:222-233 | a submitted row targeting `FNAME`, with no later one, decides `FNAME` whatever the first-name mapping says |
| `EditableMailChimpField.Submitted` | code/extensions/EditableMailChimpField.php:230 | keeps exactly the rows whose form field was submitted: each such row occurs as often as in the input, every other row not at all |
| `EditableMailChimpField.AbsentRowsIgnored` | code/extensions/EditableMailChimpField.php:229-233 | applying all rows equals applying only the rows whose form field was submitted |
| `EditableMailChimpField.BuildMergeFields` | code/extensions/EditableMailChimpField.php:221-233 | the map built by the name assignments and the loop over the rows is the specification `MergeFieldsFor`: name mapping first, then each submitted row in order |
| `EditableMailChimpField.CreatePayloadContents` | code/extensions/EditableMailChimpField.php:235-244 | `CreatePayload` has exactly the keys e-mail address, status, tags and merge fields; the address is the submitted e-mail field (or null), status is "subscribed", tags are the split tag list (empty list when none), merge fields are the constructed map |
| `EditableMailChimpField.UpdatePayloadContents` | code/extensions/EditableMailChimpField.php:254-260 | `UpdatePayload` never holds the address or the status; it holds merge fields, plus tags exactly when there are tags, with the same values as the create payload |
| `EditableMailChimpField.UpdateIsCreateWithoutIdentity` | code/extensions/EditableMailChimpField.php:235-260 | the update payload is the create payload minus the address and status, and minus the tags when there are none |
| `EditableMailChimpField.HappyPathPayload` | code/extensions/EditableMailChimpField.php:219-244 | an address plus a first name, with no tags or rows, gives the payload with that address, status "subscribed", an empty tag list and only `FNAME` |
| `EditableMailChimpField.GetValueFromData` | code/extensions/EditableMailChimpField.php:202-278 | unless the field was submitted and a list is set (`WillSubscribe`), returns false with no call; otherwise the first call is the create POST to `lists/{ListID}/members` with the create payload; a second call is made iff update is on and the create body has status 400 (`IsConflict`, with `IsStatus400` for PHP's loose `== 400`: the integer 400, the string "400" or `true`); it is the PATCH to `lists/{ListID}/members/{hash}` with the update payload; there are never more than two calls; the answer is "Subscribed" iff the last call succeeded, else "Not subscribed" |
| `EditableMailChimpField.GetLists` | code/extensions/EditableMailChimpField.php:291-308 | no lists when the request fails; otherwise one option per entry of the body's `lists` array (`ListEntries`), in response order, with the entry's `id` and `name` members, `null` when missing (`Member`) |
| `MailChimp.Client.Post` | code/extensions/EditableMailChimpField.php:246-249 | the POST is appended to the client's log and its reply's success becomes the client's last success |
| `MailChimp.Client.Patch` | code/extensions/EditableMailChimpField.php:262-265 | the PATCH is appended to the log and its reply's success becomes the last success |
| `MailChimp.Client.Get` | code/extensions/EditableMailChimpField.php:297 | the GET is appended to the log and its reply's success becomes the last success |

## Left out

- `getCMSFields` and `getFormField` build the configuration screen and the form widget from framework classes.
- The static table, database and relation declarations are not modelled. They are ORM configuration. `getFieldValidationOptions` returns the constant `false`.
- The HTTP transport, the API key read from configuration and the MailChimp client library are abstract. The server is a function parameter.
- `MailChimp::subscriberHash` (an MD5 digest of the lower-cased address) is an uninterpreted function parameter. It is given the PHP string value of the address, so a missing address is the empty string.
- The `beforeValueFromData`, `afterValueFromData` and `updateLists` extension hooks are taken to change nothing.
- Warnings PHP prints for undefined keys are not modelled. They do not change control flow.
- Submitted values are strings. Array-valued form data is not modelled.
- A merge-field row's form field is a plain name. A row whose related field was deleted is not modelled.
- JSON encoding details are not modelled: key order in objects, and PHP turning numeric-string keys into integers. A key set like the empty `merge_fields` map then encodes as a JSON array.
- `IsStatus400` covers only part of PHP's `== 400` on a decoded value. It is true for the integer 400, the string "400" and `true`. Floats and other numeric spellings such as "400.0" are not recognised.
- A response with no body decodes to PHP `false`. The model reads it as an empty body. `array_key_exists` on `false` is a warning in PHP 7 and an error in PHP 8, and the model follows PHP 7.
- `GetLists`: a `lists` entry that is not a JSON array gives no lists. An entry that is not an object gives null for both `id` and `name`.
- `Tags.IsSpace` is the ASCII `\s` of PCRE without UTF mode: space, tab, line feed, vertical tab, form feed, carriage return.
