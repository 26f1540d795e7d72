/** Worked requests against a fresh table, proved from the service contracts alone. */
module Scenarios {
  import opened JsValues
  import opened UrlRedirectData
  import opened DynamoTable
  import opened UrlRedirect

  /** Creating a link without a key in an empty table yields a six-character
      key, a creation time and no expiry, and the key is then taken. */
  method CreateWithGeneratedKey(rng: RandomSource)
  {
    var db := new Table();
    var res, cycles := Create(
      db, Instance(1000), Val("A"), Val("l.co"), Val("https://x.test"),
      Val(6), Undefined, Undefined, Undefined,
      rng, _ => false, 3, Healthy);
    assert !CandidateTaken(map[], Val("l.co"), Val(6), rng, _ => false, 0);
    assert res.Ok? && cycles == 1;
    assert |res.value.key.value| == 6;
    assert res.value.time_of_creation == Val(1000);
    assert res.value.time_of_expiry == Null;
    StoredKeyIsInUse(map[], res.value);
    var again := CheckKeyAvailablity(db, Val("l.co"), res.value.key, false);
    assert !again;
  }

  /** Looking up a key that nothing was stored under: no error, not found. */
  method RedirectOfMissingKey()
  {
    var db := new Table();
    var res := GetRedirectUrl(db, Val("l.co"), Val("abc123"), false);
    assert res == Ok(None);
  }

  /** Deleting on a storage that reports success: no error, true. */
  method DeleteReportsSuccess()
  {
    var db := new Table();
    var res := DeleteData(db, Val("A"), Val("l.co"), Val("abc123"), Healthy);
    assert res == Ok(true);
  }

  /** An explicit key is written as given, over whatever was stored under it,
      and an update asking both to remove and to set the expiry leaves none. */
  method ExplicitKeyThenUpdate()
  {
    var db := new Table();
    var rng: RandomSource := _ => _ => 0;
    var first, c1 := Create(
      db, Instance(50), Val("A"), Val("l.co"), Val("https://a.test"),
      Undefined, Val("abc123"), Val(10), Undefined, rng, _ => false, 0, Healthy);
    assert first.Ok? && c1 == 0 && first.value.time_of_expiry == Val(650);
    var second, c2 := Create(
      db, Instance(60), Val("A"), Val("l.co"), Val("https://b.test"),
      Undefined, Val("abc123"), Undefined, Undefined, rng, _ => false, 0, Healthy);
    assert second.Ok? && c2 == 0;
    var k := ("l.co", "abc123&A");
    assert ConstructSortKey(Val("abc123"), Val("A")) == "abc123&A";
    assert db.rows.Keys == {k};
    assert db.rows[k].ol == Some("https://b.test");
    var upd := UpdateData(db, Instance(70), Val("A"), Val("l.co"), Val("abc123"), Val(5), true, Undefined, Healthy);
    assert upd == Ok(true);
    assert db.rows[k].ex == None && db.rows[k].toe == None;
    assert db.rows[k].ol == Some("https://b.test");
  }

  /** A create whose write is declined reports DATABASE_WRITE_FAILED, one whose
      store is unreachable a storage error, and neither changes the table. */
  method CreateOnFailingStore(rng: RandomSource)
  {
    var db := new Table();
    var declined, c1 := Create(
      db, Instance(50), Val("A"), Val("l.co"), Val("https://a.test"),
      Undefined, Val("abc123"), Undefined, Undefined, rng, _ => false, 0, Declined);
    assert declined == Err(DatabaseWriteFailed);
    var unreachable, c2 := Create(
      db, Instance(50), Val("A"), Val("l.co"), Val("https://a.test"),
      Undefined, Undefined, Undefined, Undefined, rng, _ => false, 3, Unreachable);
    assert !CandidateTaken(map[], Val("l.co"), Undefined, rng, _ => false, 0);
    assert unreachable == Err(StorageError);
    assert db.rows == map[];
  }
}
