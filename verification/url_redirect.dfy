/** The redirect service: create, read, update and delete short-URL records
    against the storage table, and the key resolver that draws random keys
    until one is free in the domain. Requests run one at a time. */
module UrlRedirect {
  import opened JsValues
  import opened Config
  import opened UrlRedirectData
  import opened DynamoTable
  import UrlRedirectInput

  /** The request instance; only its unix time (seconds) is read. */
  datatype Instance = Instance(time: int)

  /** The random source of `Lib.Crypto.generateRandomString`: draw `j` of
      the `n`-th call is `rng(n)(j)`. */
  type RandomSource = nat -> nat -> nat

  // ---------------------------------------------------------------- pure parts

  /** `instance.time + expiry * 60` when an expiry (minutes) is given. */
  function TimeOfExpiry(time: int, expiry: Js<int>): (r: Js<int>)
    ensures r.Undefined? <==> expiry.IsNullOrUndefined()
    ensures !r.Null?
    ensures r.Val? ==> r.value - time == 60 * expiry.value
  {
    if expiry.IsNullOrUndefined() then Undefined else Val(time + expiry.value * 60)
  }

  /** A JS falsy key length: undefined, null or 0. */
  predicate Falsy(n: Js<nat>) {
    n.IsNullOrUndefined() || n.value == 0
  }

  /** `key_length ? key_length : CONFIG.DEFAULT_KEY_LENGTH` */
  function KeyLength(key_length: Js<nat>): (n: nat)
    ensures n >= 1
    ensures Falsy(key_length) ==> n == DEFAULT_KEY_LENGTH
    ensures !Falsy(key_length) ==> n == key_length.value
  {
    if Falsy(key_length) then DEFAULT_KEY_LENGTH else key_length.value
  }

  /** `Lib.Crypto.generateRandomString(charset, length)` with its draws given:
      each character is picked from the charset by one draw. */
  function GenerateRandomString(charset: string, length: nat, draws: nat -> nat): (s: string)
    requires |charset| > 0
    ensures |s| == length
    ensures forall i :: 0 <= i < |s| ==> s[i] in charset
  {
    seq(length, i requires 0 <= i < length => charset[draws(i) % |charset|])
  }

  /** `generateKey` (url_redirect.js:687-694). */
  function GenerateKey(key_length: Js<nat>, draws: nat -> nat): (key: string)
    ensures |key| == KeyLength(key_length)
    ensures forall i :: 0 <= i < |key| ==> IsKeyChar(key[i])
  {
    KeyCharsetIsKeyClass();
    GenerateRandomString(KEY_CHARSET, KeyLength(key_length), draws)
  }

  /** The key the resolver tries on its `n`-th cycle. */
  function Candidate(key_length: Js<nat>, rng: RandomSource, n: nat): string {
    GenerateKey(key_length, rng(n))
  }

  /** A generated key passes `validateUrlKey` exactly when its length is in
      [6, 12] (always with the default length), and sanitising leaves it as it is. */
  lemma GeneratedKeyIsClean(key_length: Js<nat>, draws: nat -> nat)
    ensures UrlRedirectInput.ValidateUrlKey(GenerateKey(key_length, draws)) <==>
      KEY_MIN_LENGTH <= KeyLength(key_length) <= KEY_MAX_LENGTH
    ensures Falsy(key_length) ==> UrlRedirectInput.ValidateUrlKey(GenerateKey(key_length, draws))
    ensures UrlRedirectInput.SanitizeUrlKey(GenerateKey(key_length, draws)) == GenerateKey(key_length, draws)
  {
    UrlRedirectInput.SanitizeUrlKeyKeepsValidKey(GenerateKey(key_length, draws));
  }

  /** Some record of partition `domain` has a sort key beginning with `key&`. */
  ghost predicate KeyInUse(rows: map<RowKey, DbRecord>, domain: Js<string>, key: Js<string>) {
    && KeyValue(domain).Some?
    && exists k {:trigger Matches(k, KeyValue(domain).value, ConstructSortKey(key, Undefined))} ::
         k in rows && Matches(k, KeyValue(domain).value, ConstructSortKey(key, Undefined))
  }

  /** What `checkKeyAvailablity` reports: a failed lookup counts as available. */
  ghost predicate Available(rows: map<RowKey, DbRecord>, domain: Js<string>, key: Js<string>, unreachable: bool) {
    unreachable || !KeyInUse(rows, domain, key)
  }

  /** Once a record is stored, its key is in use in its domain, whatever its namespace. */
  lemma StoredKeyIsInUse(rows: map<RowKey, DbRecord>, data: UrlData)
    requires RowKeyOf(DbDataOf(data)).Some?
    ensures KeyInUse(rows[RowKeyOf(DbDataOf(data)).value := DbDataOf(data)], data.domain, data.key)
  {
    var k := RowKeyOf(DbDataOf(data)).value;
    LookupPrefixCoversNamespaces(data.key, data.namespace_id);
    assert Matches(k, KeyValue(data.domain).value, ConstructSortKey(data.key, Undefined));
  }

  // ---------------------------------------------------------------- reads

  /** `getData` / `getDataFromDynamoDB` (url_redirect.js:166-177, 432-475):
      the first record, in ascending sort-key order, of partition `domain`
      whose sort key begins with `key&`, translated; None (`false`) when
      there is none; storage errors are passed on. */
  method GetData(db: Table, domain: Js<string>, key: Js<string>, unreachable: bool)
    returns (res: Result<Option<UrlData>>)
    requires db.Valid()
    ensures unreachable || KeyValue(domain).None? ==> res == Err(StorageError)
    ensures !unreachable && KeyValue(domain).Some? ==> res.Ok?
    ensures res.Ok? ==> (res.value.None? <==> !KeyInUse(db.rows, domain, key))
    ensures res.Ok? && res.value.Some? ==>
      exists k :: IsFirstMatch(db.rows, KeyValue(domain).value, ConstructSortKey(key, Undefined), k)
        && res.value.value == CreateDataFromDbData(db.rows[k])
    ensures res.Ok? && res.value.Some? && key.Val? && SORT_KEY_DELIMITER !in key.value ==>
      res.value.value.key == key
  {
    var prefix := ConstructSortKey(key, Undefined);
    var response := db.QueryFirst(domain, prefix, unreachable);
    if response.Err? {
      return Err(response.error);
    }
    if response.value.None? {
      return Ok(None);
    }
    var rec := response.value.value;
    ghost var k := (KeyValue(domain).value, rec.id.value);
    assert IsFirstMatch(db.rows, KeyValue(domain).value, prefix, k);
    if key.Val? && SORT_KEY_DELIMITER !in key.value {
      PrefixDeterminesKey(key.value, rec.id.value);
    }
    res := Ok(Some(CreateDataFromDbData(rec)));
  }

  /** `getRedirectUrl` (url_redirect.js:196-231): the same lookup, projected
      to the original link and the supplementary data. */
  method GetRedirectUrl(db: Table, domain: Js<string>, key: Js<string>, unreachable: bool)
    returns (res: Result<Option<(Js<string>, Js<SupplementaryData>)>>)
    requires db.Valid()
    ensures unreachable || KeyValue(domain).None? ==> res == Err(StorageError)
    ensures !unreachable && KeyValue(domain).Some? ==> res.Ok?
    ensures res.Ok? ==> (res.value.None? <==> !KeyInUse(db.rows, domain, key))
    ensures res.Ok? && res.value.Some? ==>
      exists k :: IsFirstMatch(db.rows, KeyValue(domain).value, ConstructSortKey(key, Undefined), k)
        && res.value.value == (Fallback(Attr(db.rows[k].ol)), Fallback(Attr(db.rows[k].sd)))
  {
    var url_data := GetData(db, domain, key, unreachable);
    if url_data.Err? {
      return Err(url_data.error);
    }
    if url_data.value.None? {
      return Ok(None);
    }
    res := Ok(Some((url_data.value.value.original_link, url_data.value.value.supplementary_data)));
  }

  /** `checkKeyAvailablity` (url_redirect.js:336-356): true iff the lookup
      yields no record; a failed lookup is ignored and reported as available. */
  method CheckKeyAvailablity(db: Table, domain: Js<string>, key: Js<string>, unreachable: bool)
    returns (is_available: bool)
    requires db.Valid()
    ensures is_available == Available(db.rows, domain, key, unreachable)
  {
    var url_data := GetData(db, domain, key, unreachable);
    is_available := !(url_data.Ok? && url_data.value.Some?);
  }

  /** The `n`-th candidate was reported "not available". */
  ghost predicate CandidateTaken(
    rows: map<RowKey, DbRecord>, domain: Js<string>, key_length: Js<nat>,
    rng: RandomSource, lookup_unreachable: nat -> bool, n: nat)
  {
    !Available(rows, domain, Val(Candidate(key_length, rng, n)), lookup_unreachable(n))
  }

  /** `generateUniquKeyWithDbCheck` (url_redirect.js:640-676), its recursion
      as a loop: draw a key, check it, retry on "not available". The source
      retries without bound; here at most `fuel` cycles run. */
  method GenerateUniquKeyWithDbCheck(
    db: Table, domain: Js<string>, key_length: Js<nat>,
    rng: RandomSource, lookup_unreachable: nat -> bool, fuel: nat)
    returns (res: Result<string>, cycles: nat)
    requires db.Valid()
    ensures cycles <= fuel
    ensures res.Ok? ==>
      && cycles >= 1
      && res.value == Candidate(key_length, rng, cycles - 1)
      && Available(db.rows, domain, Val(res.value), lookup_unreachable(cycles - 1))
      && forall i: nat :: i < cycles - 1 ==>
           CandidateTaken(db.rows, domain, key_length, rng, lookup_unreachable, i)
    ensures res.Err? ==>
      && res.error == RetriesExhausted && cycles == fuel
      && forall i: nat :: i < fuel ==>
           CandidateTaken(db.rows, domain, key_length, rng, lookup_unreachable, i)
  {
    cycles := 0;
    while cycles < fuel
      invariant cycles <= fuel
      invariant forall i: nat :: i < cycles ==>
        CandidateTaken(db.rows, domain, key_length, rng, lookup_unreachable, i)
    {
      var key := GenerateKey(key_length, rng(cycles));
      var is_available := CheckKeyAvailablity(db, domain, Val(key), lookup_unreachable(cycles));
      if is_available {
        return Ok(key), cycles + 1;
      }
      cycles := cycles + 1;
    }
    res := Err(RetriesExhausted);
  }

  // ---------------------------------------------------------------- writes

  /** `setDataInDynamoDb` (url_redirect.js:379-413): put the storage image;
      the record itself on success, DATABASE_WRITE_FAILED on a declined write. */
  method SetDataInDynamoDb(db: Table, url_data: UrlData, fault: Fault) returns (res: Result<UrlData>)
    requires db.Valid()
    modifies db
    ensures db.Valid()
    ensures var rec := DbDataOf(url_data);
      && (fault == Unreachable || RowKeyOf(rec).None? ==>
            res == Err(StorageError) && db.rows == old(db.rows))
      && (fault == Declined && RowKeyOf(rec).Some? ==>
            res == Err(DatabaseWriteFailed) && db.rows == old(db.rows))
      && (fault == Healthy && RowKeyOf(rec).Some? ==>
            res == Ok(url_data) && db.rows == old(db.rows)[RowKeyOf(rec).value := rec])
  {
    var db_record := CreateDbDataFromUrlData(url_data);
    var is_success := db.Put(db_record, fault);
    if is_success.Err? {
      return Err(is_success.error);
    }
    if !is_success.value {
      return Err(DatabaseWriteFailed);
    }
    res := Ok(url_data);
  }

  /** `create` (url_redirect.js:84-147). */
  method Create(
    db: Table, instance: Instance,
    namespace_id: Js<string>, domain: Js<string>, original_link: Js<string>,
    key_length: Js<nat>, key: Js<string>, expiry: Js<int>,
    supplementary_data: Js<SupplementaryData>,
    rng: RandomSource, lookup_unreachable: nat -> bool, fuel: nat, fault: Fault)
    returns (res: Result<UrlData>, cycles: nat)
    requires db.Valid()
    modifies db
    ensures db.Valid()
    ensures res.Ok? ==>
      && res.value.namespace_id == Fallback(namespace_id)
      && res.value.domain == Fallback(domain)
      && res.value.original_link == Fallback(original_link)
      && res.value.link_expiry == Fallback(expiry)
      && res.value.supplementary_data == Fallback(supplementary_data)
      && res.value.time_of_creation == Val(instance.time)
      && res.value.time_of_expiry == Fallback(TimeOfExpiry(instance.time, expiry))
    ensures !key.IsNullOrUndefined() ==> cycles == 0
    ensures !key.IsNullOrUndefined() && res.Ok? ==> res.value.key == key
    ensures !key.IsNullOrUndefined() && !EmptyString(key) && KeyValue(domain).Some? && fault == Healthy ==>
      res.Ok?
    ensures key.IsNullOrUndefined() && res.Ok? ==>
      && 1 <= cycles <= fuel
      && res.value.key == Val(Candidate(key_length, rng, cycles - 1))
      && Available(old(db.rows), domain, res.value.key, lookup_unreachable(cycles - 1))
      && forall i: nat :: i < cycles - 1 ==>
           CandidateTaken(old(db.rows), domain, key_length, rng, lookup_unreachable, i)
    ensures key.IsNullOrUndefined() && res.Err? && fault == Healthy && KeyValue(domain).Some? ==>
      && res.error == RetriesExhausted
      && forall i: nat :: i < fuel ==>
           CandidateTaken(old(db.rows), domain, key_length, rng, lookup_unreachable, i)
    ensures !key.IsNullOrUndefined() && (fault == Unreachable || EmptyString(key) || KeyValue(domain).None?) ==>
      res == Err(StorageError)
    ensures !key.IsNullOrUndefined() && !EmptyString(key) && KeyValue(domain).Some? && fault == Declined ==>
      res == Err(DatabaseWriteFailed)
    ensures key.IsNullOrUndefined() && res != Err(RetriesExhausted) && (fault == Unreachable || KeyValue(domain).None?) ==>
      res == Err(StorageError)
    ensures key.IsNullOrUndefined() && res != Err(RetriesExhausted) && KeyValue(domain).Some? && fault == Declined ==>
      res == Err(DatabaseWriteFailed)
    ensures key.IsNullOrUndefined() && res == Err(RetriesExhausted) ==>
      && cycles == fuel
      && forall i: nat :: i < fuel ==>
           CandidateTaken(old(db.rows), domain, key_length, rng, lookup_unreachable, i)
    ensures res.Ok? ==>
      && RowKeyOf(DbDataOf(res.value)).Some?
      && db.rows == old(db.rows)[RowKeyOf(DbDataOf(res.value)).value := DbDataOf(res.value)]
    ensures res.Err? ==> db.rows == old(db.rows)
  {
    var time_of_expiry := TimeOfExpiry(instance.time, expiry);
    var url_data := CreateData(
      namespace_id, domain, key, original_link,
      expiry, supplementary_data,
      Val(instance.time), time_of_expiry);
    cycles := 0;
    if key.IsNullOrUndefined() {
      var generated_key;
      generated_key, cycles := GenerateUniquKeyWithDbCheck(db, domain, key_length, rng, lookup_unreachable, fuel);
      if generated_key.Err? {
        return Err(generated_key.error), cycles;
      }
      url_data := url_data.(key := Val(generated_key.value));
    }
    res := SetDataInDynamoDb(db, url_data, fault);
  }

  /** The update request `updateDataInDynamoDB` builds (url_redirect.js:504-537):
      attributes to set and attributes to remove. */
  method BuildUpdateRequest(
    instance: Instance, expiry: Js<int>, remove_expiry: bool,
    supplementary_data: Js<SupplementaryData>)
    returns (changes: DbRecord, remove_keys: seq<Attribute>)
    ensures remove_keys == if remove_expiry then [Ex, Toe] else []
    ensures changes.ex == changes.toe
    ensures changes.toe == if expiry.IsNullOrUndefined() then None else Some(instance.time + expiry.value * 60)
    ensures changes.sd == NonEmptyObject(supplementary_data)
    ensures changes.p.None? && changes.id.None? && changes.ns.None?
    ensures changes.ol.None? && changes.toc.None?
  {
    var updated_record_data := UrlData(
      Undefined, Undefined, Undefined, Undefined, Undefined, Undefined, Undefined, Undefined);
    remove_keys := [];
    if remove_expiry {
      remove_keys := remove_keys + [Ex];
      remove_keys := remove_keys + [Toe];
    }
    if !expiry.IsNullOrUndefined() {
      updated_record_data := updated_record_data.(link_expiry := expiry);
      updated_record_data := updated_record_data.(time_of_expiry := Val(instance.time + expiry.value * 60));
    }
    if !supplementary_data.IsNullOrUndefined() {
      updated_record_data := updated_record_data.(supplementary_data := supplementary_data);
    }
    changes := CreateDbDataFromUrlData(updated_record_data);
  }

  /** `updateData` / `updateDataInDynamoDB` (url_redirect.js:286-318, 497-563):
      a partial update of exactly `(domain, key&namespace_id)`. With both
      `remove_expiry` and `expiry`, `ex`/`toe` are set and also removed. */
  method UpdateData(
    db: Table, instance: Instance,
    namespace_id: Js<string>, domain: Js<string>, key: Js<string>,
    expiry: Js<int>, remove_expiry: bool, supplementary_data: Js<SupplementaryData>,
    fault: Fault)
    returns (res: Result<bool>)
    requires db.Valid()
    modifies db
    ensures db.Valid()
    ensures fault == Unreachable || KeyValue(domain).None? ==>
      res == Err(StorageError) && db.rows == old(db.rows)
    ensures fault == Declined && KeyValue(domain).Some? ==>
      res == Err(UndefinedErrorCode) && db.rows == old(db.rows)
    ensures fault == Healthy && KeyValue(domain).Some? ==>
      var k := (KeyValue(domain).value, ConstructSortKey(key, namespace_id));
      var before := Base(old(db.rows), k);
      && res == Ok(true)
      && db.rows.Keys == old(db.rows).Keys + {k}
      && (forall k' :: k' in old(db.rows) && k' != k ==> db.rows[k'] == old(db.rows)[k'])
      && db.rows[k].p == before.p && db.rows[k].id == before.id
      && db.rows[k].ns == before.ns && db.rows[k].ol == before.ol && db.rows[k].toc == before.toc
      && db.rows[k].ex == (if remove_expiry then None
                           else if expiry.IsNullOrUndefined() then before.ex
                           else Some(instance.time + expiry.value * 60))
      && db.rows[k].toe == (if remove_expiry then None
                            else if expiry.IsNullOrUndefined() then before.toe
                            else Some(instance.time + expiry.value * 60))
      && db.rows[k].sd == (if EmptyObject(supplementary_data) then before.sd
                           else Some(supplementary_data.value))
  {
    var record_id := ConstructSortKey(key, namespace_id);
    var changes, remove_keys := BuildUpdateRequest(instance, expiry, remove_expiry, supplementary_data);
    var is_success := db.Update(domain, record_id, changes, remove_keys, fault);
    if is_success.Err? {
      return Err(is_success.error);
    }
    if !is_success.value {
      return Err(UndefinedErrorCode);
    }
    res := Ok(true);
  }

  /** `deleteData` / `deleteDataInDynamoDB` (url_redirect.js:250-263, 582-623):
      delete exactly `(domain, key&namespace_id)`; true on success, false
      (not an error) when storage reports no success. */
  method DeleteData(
    db: Table, namespace_id: Js<string>, domain: Js<string>, key: Js<string>, fault: Fault)
    returns (res: Result<bool>)
    requires db.Valid()
    modifies db
    ensures db.Valid()
    ensures fault == Unreachable || KeyValue(domain).None? ==>
      res == Err(StorageError) && db.rows == old(db.rows)
    ensures fault == Declined && KeyValue(domain).Some? ==>
      res == Ok(false) && db.rows == old(db.rows)
    ensures fault == Healthy && KeyValue(domain).Some? ==>
      res == Ok(true)
      && db.rows == old(db.rows) - {(KeyValue(domain).value, ConstructSortKey(key, namespace_id))}
  {
    var record_id := ConstructSortKey(key, namespace_id);
    var is_success := db.Delete(domain, record_id, fault);
    if is_success.Err? {
      return Err(is_success.error);
    }
    if !is_success.value {
      return Ok(false);
    }
    res := Ok(true);
  }
}
