# URL redirect core, modelled in Dafny

This project models the data and key-management core of a URL-shortener
library. It covers four pieces:

- the composite sort key `key&namespace_id` and its decoding (`JoinStrings`,
  `Split`, `ConstructSortKey`, `DeconstructSortKey`);
- the translation between the eight-field URL record and the sparse storage
  record with short attribute names `p`, `id`, `ns`, `ol`, `ex`, `sd`, `toe`,
  `toc` (`CreateData`, `DbDataOf`, `CreateDbDataFromUrlData`,
  `CreateDataFromDbData`);
- key validation and sanitisation against the base-36 class `[0-9a-z]`
  (`ValidateUrlKey`, `SanitizeUrlKey`);
- the redirect service: create, read, update, delete, key-availability check
  and the retry-until-free key resolver. It runs against an in-memory
  `DynamoTable.Table` that stands in for the remote key-value table.

Files and modules:

| file | module | contents |
|---|---|---|
| js_values.dfy | `JsValues` | `Js<T>` (undefined / null / value), `Option`, the library's `fallback`, `isEmpty` and `isNullOrUndefined` |
| config.dfy | `Config` | KEY_MIN_LENGTH 6, KEY_MAX_LENGTH 12, KEY_CHARSET, DEFAULT_KEY_LENGTH 6 |
| url_redirect_data.dfy | `UrlRedirectData` | sort-key codec and record translator |
| url_redirect_input.dfy | `UrlRedirectInput` | key validation and sanitisation |
| dynamo_table.dfy | `DynamoTable` | the abstract table: put, `begins_with` query, partial update, delete |
| url_redirect.dfy | `UrlRedirect` | the service operations and the key resolver |
| scenarios.dfy | `Scenarios` | worked requests on a fresh table, checked from the contracts |

Modelling choices:

- A JavaScript value is `Js<T>`. `Lib.Utils.fallback` turns undefined into null.
- `Lib.Utils.isEmpty` is read as follows. A string is empty when it is null,
  undefined or `""`. A number is empty only when it is null or undefined, so 0
  is not empty. Supplementary data is empty when it is null, undefined or has
  no keys.
- A storage record is `DbRecord`, with one `Option` per attribute. `None`
  means the attribute is absent.
- The table holds `rows: map<(p, id), DbRecord>`.
  - Put overwrites the row.
  - The query returns the row whose `id` is smallest in lexicographic
    (ascending) order among those of the partition that begin with the prefix.
  - Update first overwrites the attributes it is given and then drops the
    listed ones. If the row is missing, update creates it.
  - Delete removes the row.
  - A missing or empty partition value or sort key is a storage error.
- Whether a remote call gets through is an input of each call:
  `Fault = Healthy | Unreachable | Declined`. A query takes a boolean
  `unreachable` instead.
- The random generator is an oracle `rng: nat -> nat -> nat`. Draw `j` of the
  `n`-th key is `rng(n)(j)`. The `j`-th character of the key is
  `KEY_CHARSET[draw % 36]`.
- The current time is the `time` field of `Instance`.

Behaviour kept as the code has it:

- `ex` stores `time_of_expiry`, not the expiry in minutes.
- `CreateDataFromDbData` puts `toe` into `time_of_creation`, `toc` into
  `time_of_expiry` and `ex` into `link_expiry`. So a write followed by a read
  swaps the two times (`StorageRoundTrip` states exactly what comes back).
- `DeconstructSortKey` keeps only the first two `&`-separated pieces.
- `CheckKeyAvailablity` ignores lookup errors and reports "available".
  So the key resolver never passes a storage error on; a key whose check
  failed is accepted.
- With `remove_expiry` and `expiry` both given, the update request both sets
  and removes `ex` and `toe`. In this table model the removal wins.
- `create` with an explicit key writes it unconditionally and overwrites
  whatever the row held.
- A declined update reports an error built from
  `CONFIG.PRINT_SPOOLER_DATABASE_WRITE_FAILED`. config.js does not define that
  entry, so the model names the error `UndefinedErrorCode`.

## Model

| member | source | states |
|---|---|---|
| `JsValues.Fallback` | url_redirect_data.js:74-81 | undefined becomes null; any other value is kept; the result is never undefined |
| `JsValues.Attr` | url_redirect_data.js:102-108 | reading an absent storage attribute gives undefined, a present one its value |
| `JsValues.NonEmptyString` | url_redirect_data.js:127-142 | a string field becomes present exactly when `isEmpty` is false for it, and then it is non-empty |
| `JsValues.NonEmptyNumber` | url_redirect_data.js:144-158 | a number field becomes present exactly when it is neither null nor undefined |
| `JsValues.NonEmptyObject` | url_redirect_data.js:148-150 | supplementary data becomes present exactly when it is an object with at least one key |
| `Config.KeyCharsetIsKeyClass` | config.js:11-13 | KEY_CHARSET has 36 symbols and is exactly the regex class `[0-9a-z]` |
| `UrlRedirectData.JoinStrings` | url_redirect_data.js:179 | `join('&')` of no pieces is `""`, and the first piece starts the result |
| `UrlRedirectData.SplitJoinRoundTrip` | url_redirect_data.js:179-193 | splitting a join with `&` gives the pieces back when none of them holds `&` |
| `UrlRedirectData.Split` | url_redirect_data.js:193 | `split('&')` gives at least one piece, no piece holds `&`, and joining the pieces with `&` gives back the input |
| `UrlRedirectData.SplitNoDelimiter` | url_redirect_data.js:193 | a string without `&` splits into itself alone |
| `UrlRedirectData.SplitAtFirstDelimiter` | url_redirect_data.js:193 | splitting `a&b` with `&` not in `a` gives `a` followed by the pieces of `b` |
| `UrlRedirectData.ConstructSortKey` | url_redirect_data.js:176-180 | the sort key is key, `&`, namespace; null or undefined parts render as `""`, so an absent namespace gives `key&` |
| `UrlRedirectData.DeconstructSortKey` | url_redirect_data.js:190-197 | the key is the text before the first `&`; the namespace is the text between the first and second `&`, undefined exactly when there is no `&`; the rest is dropped |
| `UrlRedirectData.SortKeyRoundTrip` | url_redirect_data.js:176-197 | for key and namespace without `&`, deconstructing the constructed sort key gives both back |
| `UrlRedirectData.DeconstructDropsTail` | url_redirect_data.js:193-196 | whatever follows a second `&` is lost |
| `UrlRedirectData.LookupPrefixCoversNamespaces` | url_redirect.js:470 | the lookup prefix is `key&`, and it is a prefix of the key's sort key in every namespace |
| `UrlRedirectData.PrefixDeterminesKey` | url_redirect.js:467-471 | a sort key beginning with `key&`, for a key without `&`, deconstructs to that key |
| `UrlRedirectData.CreateData` | url_redirect_data.js:65-84 | the record has no undefined field; each field is null when its argument is undefined and is the argument otherwise |
| `UrlRedirectData.CreateDataFromDbData` | url_redirect_data.js:94-111 | key and namespace come from deconstructing `id`, domain from `p`, link from `ol`, supplementary data from `sd`, `link_expiry` from `ex`; `toe` goes into `time_of_creation` and `toc` into `time_of_expiry` |
| `UrlRedirectData.DbDataOf` | url_redirect_data.js:121-164 | the storage image is sparse: each attribute is present iff its source field is non-empty; `id` is present iff the key is non-empty and then equals the sort key; `ex` and `toe` both hold `time_of_expiry` |
| `UrlRedirectData.LinkExpiryNeverStored` | url_redirect_data.js:140-158 | `link_expiry` has no effect on the storage record |
| `UrlRedirectData.CreateDbDataFromUrlData` | url_redirect_data.js:121-164 | the field-by-field construction yields exactly the sparse image `DbDataOf` |
| `UrlRedirectData.StorageRoundTrip` | url_redirect_data.js:97-162 | writing then reading a record gives back key, namespace, domain, link and supplementary data; the times come back swapped: `time_of_creation` holds the old expiry time, `time_of_expiry` the old creation time, `link_expiry` the old expiry time |
| `UrlRedirectInput.ValidateStringRegx` | url_redirect_input.js:63-68 | a string passes iff every character is in `[0-9a-z]` and its length is within the given bounds |
| `UrlRedirectInput.MatchesKeyCharset` | config.js:12 | `/^[0-9a-z]*$/` matches iff every character is in `[0-9a-z]` |
| `UrlRedirectInput.ValidateUrlKey` | url_redirect_input.js:60-70 | a key is valid iff all its characters are in `[0-9a-z]` and its length is between 6 and 12 inclusive |
| `UrlRedirectInput.ToLowerAscii` | url_redirect_input.js:83 | upper-case ASCII letters map to their lower-case form; every other character is unchanged |
| `UrlRedirectInput.LowerCase` | url_redirect_input.js:83 | lower-casing keeps the length and maps each character |
| `UrlRedirectInput.SanitizeUsingRegx` | config.js:11 | deleting the characters outside `[0-9a-z]` leaves only class characters and never lengthens the string |
| `UrlRedirectInput.SanitizeUrlKey` | url_redirect_input.js:80-85 | the sanitised key has only `[0-9a-z]` characters and is no longer than the input |
| `UrlRedirectInput.SanitizeIsSubsequence` | config.js:11 | the filter keeps characters in their original order |
| `UrlRedirectInput.SanitizeCounts` | config.js:11 | the filter keeps every occurrence of a class character and no other character |
| `UrlRedirectInput.SanitizeFixesKeyStrings` | config.js:11 | a string of class characters passes the filter unchanged |
| `UrlRedirectInput.SanitizeUrlKeyKeepsValidKey` | url_redirect_input.js:83 | a key made only of `[0-9a-z]` is returned unchanged |
| `UrlRedirectInput.SanitizeUrlKeyIdempotent` | url_redirect_input.js:83 | sanitising twice equals sanitising once |
| `UrlRedirectInput.SanitizeUrlKeyCharacterises` | url_redirect_input.js:83 | the result is the in-order subsequence of the lower-cased key that holds all its class characters; every upper-case ASCII letter survives in lower case |
| `UrlRedirectInput.ValidateSanitizedKey` | url_redirect_input.js:60-85 | a sanitised key is valid iff its length is between 6 and 12 |
| `DynamoTable.Overlay` | url_redirect.js:541-561 | an update never changes the key attributes `p` and `id` |
| `DynamoTable.Without` | url_redirect.js:541-561 | removing attributes never touches `p` and `id` |
| `DynamoTable.LexLessIrreflexive` | url_redirect.js:467-468 | the ascending sort-key order is strict |
| `DynamoTable.LexLessTransitive` | url_redirect.js:467-468 | the ascending sort-key order is transitive |
| `DynamoTable.LexLessTotal` | url_redirect.js:467-468 | any two distinct sort keys are ordered |
| `DynamoTable.LexLeAntisymmetric` | url_redirect.js:467-468 | sort keys that are each at most the other are equal |
| `DynamoTable.FirstMatchUnique` | url_redirect.js:457 | the first record of an ascending `begins_with` query is unique |
| `DynamoTable.Table.Put` | url_redirect.js:389-411 | put overwrites the row addressed by the record's `p` and `id`; a missing key attribute or an unreachable store is an error; a declined write reports false; otherwise nothing changes |
| `DynamoTable.Table.QueryFirst` | url_redirect.js:438-473 | the result is the first row, in ascending sort-key order, of the partition whose sort key begins with the prefix; it is None iff no row matches; the call fails iff the store is unreachable or the partition value is missing |
| `DynamoTable.Table.Update` | url_redirect.js:541-561 | the addressed row gets the set attributes and loses the removed ones; all other rows stay; a missing row is created |
| `DynamoTable.Table.Delete` | url_redirect.js:596-621 | the addressed row, and only it, is removed |
| `UrlRedirect.TimeOfExpiry` | url_redirect.js:94-97 | the expiry time is present iff an expiry is given, and then lies `60 * expiry` seconds after the request time |
| `UrlRedirect.KeyLength` | url_redirect.js:689-692 | a falsy key length gives DEFAULT_KEY_LENGTH, any other the given length; it is never 0 |
| `UrlRedirect.GenerateRandomString` | url_redirect.js:689-692 | the random string has the requested length and draws every character from the charset |
| `UrlRedirect.GenerateKey` | url_redirect.js:687-694 | a generated key has the chosen length and only `[0-9a-z]` characters |
| `UrlRedirect.GeneratedKeyIsClean` | url_redirect.js:687-694 | a generated key passes validation iff its length is in [6, 12], always passes with the default length, and is left unchanged by sanitising |
| `UrlRedirect.StoredKeyIsInUse` | url_redirect.js:342-350 | once a record is stored, its key is unavailable in its domain, whatever its namespace |
| `UrlRedirect.GetData` | url_redirect.js:432-475 | `getData` forwards to this lookup: the translated first ascending match of `key&` in partition `domain`; None (`false`) iff nothing matches; storage errors are passed on; a key without `&` only finds records of that key |
| `UrlRedirect.GetRedirectUrl` | url_redirect.js:196-231 | the same lookup, projected to original link and supplementary data, or `false` |
| `UrlRedirect.CheckKeyAvailablity` | url_redirect.js:336-356 | available iff the lookup finds no record or the lookup fails |
| `UrlRedirect.GenerateUniquKeyWithDbCheck` | url_redirect.js:640-676 | the resolver returns the first candidate reported available, after exactly as many cycles as its position plus one; every earlier candidate was reported taken |
| `UrlRedirect.SetDataInDynamoDb` | url_redirect.js:379-413 | the record's storage image is put; the record itself is returned on success, DATABASE_WRITE_FAILED on a declined write, and storage errors are passed on |
| `UrlRedirect.Create` | url_redirect.js:84-147 | the creation time is the request time; the expiry time is set iff an expiry is given; an explicit key means no key generation and an unconditional overwrite; otherwise the stored key is the resolver's first free candidate; an unreachable store or a missing domain or key gives a storage error, a declined write DATABASE_WRITE_FAILED, and a resolver out of cycles `RetriesExhausted` with every candidate taken; the table changes only on success |
| `UrlRedirect.BuildUpdateRequest` | url_redirect.js:504-537 | the remove list is `[ex, toe]` iff `remove_expiry`; `ex` and `toe` are set to `time + 60 * expiry` iff an expiry is given; `sd` is set iff supplementary data is given and non-empty; nothing else is set |
| `UrlRedirect.UpdateData` | url_redirect.js:497-563 | `updateData` forwards to this update of exactly `(domain, key&namespace_id)`: expiry attributes removed, set or kept as the request says, `sd` replaced when given, every other attribute and row unchanged; a declined update is an error |
| `UrlRedirect.DeleteData` | url_redirect.js:582-623 | `deleteData` forwards to this delete of exactly `(domain, key&namespace_id)`: true on success, false and no change when storage declines, errors passed on |

## Left out

- The real DynamoDB client, `Lib.DynamoDB.*`, is not part of this model. It is unseen network I/O. `DynamoTable.Table` replaces it, and its semantics are chosen as follows:
  - Overlapping SET and REMOVE on one attribute: the removal wins. The real store may reject such a request; the model does not capture that.
  - A missing row is created by an update.
  - The query reports no match as an absent response. The source tests `!response`; an empty array would be truthy there, and the model does not capture that case.
- `Lib.Crypto.generateRandomString` is an external randomness source. It is replaced by the draw oracle `rng`.
- `UrlRedirect.GenerateUniquKeyWithDbCheck`: the source retries without bound, while the model stops after `fuel` cycles with `RetriesExhausted`, an error the source never produces.
- Concurrency is left out. That covers the asynchronous callbacks and the check-then-write race between two concurrent creates. Requests run one after another.
- Module loaders and the configuration merge are dependency wiring, so they are left out.
- The DB_SOURCE table name and the error message texts are not modelled.
- `UrlRedirectInput.SanitizeUrlKey`: lower-casing is ASCII only. JavaScript's `toLowerCase` also maps some non-ASCII characters to ASCII letters, for example the Kelvin sign to `k`. The model deletes such characters instead.
- `UrlRedirectInput.ValidateUrlKey` and `SanitizeUrlKey` take a string. A null or undefined key, on which the source throws or defers to an unseen helper, is not modelled.
- `UrlRedirectData.CreateDataFromDbData` requires an `id` attribute. The source would throw on a record without one, and every row of the table has one.
- `UrlRedirect.KeyLength`: key lengths are natural numbers. Negative or fractional lengths, which reach the unseen random generator, are not modelled.
- `expiry * 60` is integer arithmetic. JavaScript number rounding and overflow are not modelled.
- `getData` and `getDataFromDynamoDB` are one member, `GetData`; `updateData` is `UpdateData`; `deleteData` is `DeleteData`. In each pair the public function only forwards, and both branches of `updateData` make the same call.
