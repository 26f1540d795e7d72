/** An in-memory stand-in for the key-value table the library writes to:
    records addressed by (partition `p`, sort key `id`), with an unconditional
    put, a `begins_with` query in ascending sort-key order, a partial update
    with a removal list, and a delete. Whether the remote call gets through
    is an input of every call. */
module DynamoTable {
  import opened JsValues
  import opened UrlRedirectData

  /** What the remote storage does with one call. */
  datatype Fault =
    | Healthy      // the call is carried out
    | Unreachable  // the client reports an error
    | Declined     // the call gets through but reports no success

  datatype Error =
    | StorageError          // error passed on from the storage client
    | DatabaseWriteFailed   // CONFIG.ERR_DATABASE_WRITE_FAILED
    | UndefinedErrorCode    // error built from a configuration entry that does not exist
    | RetriesExhausted      // the key resolver ran out of candidates (model only)

  datatype Result<+T> = Ok(value: T) | Err(error: Error)

  /** The non-key attributes a partial update may remove. */
  datatype Attribute = Ns | Ol | Ex | Sd | Toe | Toc

  type RowKey = (string, string)

  /** A key attribute value the storage accepts: present and non-empty. */
  function KeyValue(v: Js<string>): Option<string> {
    if v.Val? && v.value != "" then Some(v.value) else None
  }

  /** The primary key of a record to be put, when it has one. */
  function RowKeyOf(rec: DbRecord): Option<RowKey> {
    if rec.p.Some? && rec.p.value != "" && rec.id.Some? && rec.id.value != ""
    then Some((rec.p.value, rec.id.value))
    else None
  }

  /** The set attributes of `changes` overwrite those of `base`; key attributes stay. */
  function Overlay(base: DbRecord, changes: DbRecord): (r: DbRecord)
    ensures r.p == base.p && r.id == base.id
  {
    DbRecord(
      base.p, base.id,
      if changes.ns.Some? then changes.ns else base.ns,
      if changes.ol.Some? then changes.ol else base.ol,
      if changes.ex.Some? then changes.ex else base.ex,
      if changes.sd.Some? then changes.sd else base.sd,
      if changes.toe.Some? then changes.toe else base.toe,
      if changes.toc.Some? then changes.toc else base.toc)
  }

  /** Drop the listed attributes. */
  function Without(rec: DbRecord, remove: seq<Attribute>): (r: DbRecord)
    ensures r.p == rec.p && r.id == rec.id
  {
    rec.(
      ns := if Ns in remove then None else rec.ns,
      ol := if Ol in remove then None else rec.ol,
      ex := if Ex in remove then None else rec.ex,
      sd := if Sd in remove then None else rec.sd,
      toe := if Toe in remove then None else rec.toe,
      toc := if Toc in remove then None else rec.toc)
  }

  /** The record addressed by `k` before a partial update: the stored one, or
      a record holding only its key when there is none (an update creates it). */
  function Base(rows: map<RowKey, DbRecord>, k: RowKey): DbRecord {
    if k in rows then rows[k]
    else DbRecord(Some(k.0), Some(k.1), None, None, None, None, None, None)
  }

  // ---------------------------------------------------------------- ascending sort-key order

  /** Strict lexicographic order on sort keys. */
  predicate LexLess(a: string, b: string) {
    if |a| == 0 then |b| > 0
    else if |b| == 0 then false
    else a[0] < b[0] || (a[0] == b[0] && LexLess(a[1..], b[1..]))
  }

  predicate LexLe(a: string, b: string) {
    a == b || LexLess(a, b)
  }

  lemma {:induction false} LexLessIrreflexive(a: string)
    ensures !LexLess(a, a)
  {
    if |a| > 0 {
      LexLessIrreflexive(a[1..]);
    }
  }

  lemma {:induction false} LexLessTransitive(a: string, b: string, c: string)
    requires LexLess(a, b) && LexLess(b, c)
    ensures LexLess(a, c)
  {
    if |a| > 0 && |b| > 0 && |c| > 0 && a[0] == b[0] == c[0] {
      LexLessTransitive(a[1..], b[1..], c[1..]);
    }
  }

  lemma {:induction false} LexLessTotal(a: string, b: string)
    requires a != b
    ensures LexLess(a, b) || LexLess(b, a)
  {
    if |a| > 0 && |b| > 0 && a[0] == b[0] {
      assert a[1..] != b[1..] by {
        assert a == [a[0]] + a[1..] && b == [b[0]] + b[1..];
      }
      LexLessTotal(a[1..], b[1..]);
    }
  }

  lemma LexLeAntisymmetric(a: string, b: string)
    requires LexLe(a, b) && LexLe(b, a)
    ensures a == b
  {
    if a != b {
      LexLessTransitive(a, b, a);
      LexLessIrreflexive(a);
    }
  }

  // ---------------------------------------------------------------- query predicates

  predicate IsPrefix(prefix: string, s: string) {
    |prefix| <= |s| && s[..|prefix|] == prefix
  }

  /** Row `k` lies in partition `p` and its sort key begins with `prefix`. */
  predicate Matches(k: RowKey, p: string, prefix: string) {
    k.0 == p && IsPrefix(prefix, k.1)
  }

  /** `k` is the first row of a `begins_with` query in ascending order. */
  ghost predicate IsFirstMatch(rows: map<RowKey, DbRecord>, p: string, prefix: string, k: RowKey) {
    && k in rows && Matches(k, p, prefix)
    && forall k' :: k' in rows && Matches(k', p, prefix) ==> LexLe(k.1, k'.1)
  }

  /** There is only one first match. */
  lemma FirstMatchUnique(rows: map<RowKey, DbRecord>, p: string, prefix: string, k1: RowKey, k2: RowKey)
    requires IsFirstMatch(rows, p, prefix, k1) && IsFirstMatch(rows, p, prefix, k2)
    ensures k1 == k2
  {
    LexLeAntisymmetric(k1.1, k2.1);
  }

  class Table {
    var rows: map<RowKey, DbRecord>

    /** Each stored record carries its own address as `p` and `id`. */
    ghost predicate Valid()
      reads this
    {
      forall k :: k in rows ==> rows[k].p == Some(k.0) && rows[k].id == Some(k.1)
    }

    constructor ()
      ensures Valid() && rows == map[]
    {
      rows := map[];
    }

    /** `Lib.DynamoDB.addRecord`: unconditional insert or overwrite. */
    method Put(rec: DbRecord, fault: Fault) returns (res: Result<bool>)
      requires Valid()
      modifies this
      ensures Valid()
      ensures fault == Unreachable || RowKeyOf(rec).None? ==>
        res == Err(StorageError) && rows == old(rows)
      ensures fault == Declined && RowKeyOf(rec).Some? ==> res == Ok(false) && rows == old(rows)
      ensures fault == Healthy && RowKeyOf(rec).Some? ==>
        res == Ok(true) && rows == old(rows)[RowKeyOf(rec).value := rec]
    {
      var k := RowKeyOf(rec);
      if fault == Unreachable || k.None? {
        return Err(StorageError);
      }
      if fault == Declined {
        return Ok(false);
      }
      rows := rows[k.value := rec];
      res := Ok(true);
    }

    /** `Lib.DynamoDB.queryRecords` on partition `partition` with the sort
        condition `begins_with(id, prefix)` in ascending order, keeping only the
        first record, or None when nothing matches. */
    method QueryFirst(partition: Js<string>, prefix: string, unreachable: bool)
      returns (res: Result<Option<DbRecord>>)
      requires Valid()
      ensures unreachable || KeyValue(partition).None? ==> res == Err(StorageError)
      ensures !unreachable && KeyValue(partition).Some? ==> res.Ok?
      ensures res.Ok? && res.value.None? ==>
        forall k :: k in rows ==> !Matches(k, KeyValue(partition).value, prefix)
      ensures res.Ok? && res.value.Some? ==>
        && res.value.value.id.Some?
        && var k := (KeyValue(partition).value, res.value.value.id.value);
           IsFirstMatch(rows, KeyValue(partition).value, prefix, k) && rows[k] == res.value.value
    {
      var pv := KeyValue(partition);
      if unreachable || pv.None? {
        return Err(StorageError);
      }
      var p := pv.value;
      var pending := set k | k in rows.Keys && Matches(k, p, prefix);
      ghost var seen: set<RowKey> := {};
      var best: Option<RowKey> := None;
      while pending != {}
        invariant pending !! seen
        invariant forall k :: k in rows && Matches(k, p, prefix) <==> k in pending + seen
        invariant best.None? <==> seen == {}
        invariant best.Some? ==> best.value in seen
        invariant best.Some? ==> forall k :: k in seen ==> LexLe(best.value.1, k.1)
        decreases pending
      {
        var k :| k in pending;
        if best.None? || LexLess(k.1, best.value.1) {
          if best.Some? {
            forall k' | k' in seen ensures LexLe(k.1, k'.1) {
              if k'.1 != best.value.1 {
                LexLessTransitive(k.1, best.value.1, k'.1);
              }
            }
          }
          best := Some(k);
        } else {
          if k.1 != best.value.1 {
            LexLessTotal(k.1, best.value.1);
          }
        }
        pending := pending - {k};
        seen := seen + {k};
      }
      if best.None? {
        return Ok(None);
      }
      res := Ok(Some(rows[best.value]));
    }

    /** `Lib.DynamoDB.updateRecord`: overwrite the attributes set in `changes`,
        then drop those in `remove`; a missing record is created. */
    method Update(partition: Js<string>, id: string, changes: DbRecord, remove: seq<Attribute>, fault: Fault)
      returns (res: Result<bool>)
      requires Valid()
      modifies this
      ensures Valid()
      ensures fault == Unreachable || KeyValue(partition).None? || id == "" ==>
        res == Err(StorageError) && rows == old(rows)
      ensures fault == Declined && KeyValue(partition).Some? && id != "" ==>
        res == Ok(false) && rows == old(rows)
      ensures fault == Healthy && KeyValue(partition).Some? && id != "" ==>
        var k := (KeyValue(partition).value, id);
        res == Ok(true) && rows == old(rows)[k := Without(Overlay(Base(old(rows), k), changes), remove)]
    {
      var pv := KeyValue(partition);
      if fault == Unreachable || pv.None? || id == "" {
        return Err(StorageError);
      }
      if fault == Declined {
        return Ok(false);
      }
      var k := (pv.value, id);
      rows := rows[k := Without(Overlay(Base(rows, k), changes), remove)];
      res := Ok(true);
    }

    /** `Lib.DynamoDB.deleteRecord`: remove the record with this address, if any. */
    method Delete(partition: Js<string>, id: string, fault: Fault) returns (res: Result<bool>)
      requires Valid()
      modifies this
      ensures Valid()
      ensures fault == Unreachable || KeyValue(partition).None? || id == "" ==>
        res == Err(StorageError) && rows == old(rows)
      ensures fault == Declined && KeyValue(partition).Some? && id != "" ==>
        res == Ok(false) && rows == old(rows)
      ensures fault == Healthy && KeyValue(partition).Some? && id != "" ==>
        res == Ok(true) && rows == old(rows) - {(KeyValue(partition).value, id)}
    {
      var pv := KeyValue(partition);
      if fault == Unreachable || pv.None? || id == "" {
        return Err(StorageError);
      }
      if fault == Declined {
        return Ok(false);
      }
      rows := rows - {(pv.value, id)};
      res := Ok(true);
    }
  }
}
