/** The URL record, its sparse storage form, and the composite sort key
    `key&namespace_id` that places every namespace of a domain in one partition. */
module UrlRedirectData {
  import opened JsValues

  const SORT_KEY_DELIMITER: char := '&'

  /** The application-level URL record (eight fields). */
  datatype UrlData = UrlData(
    namespace_id: Js<string>,
    domain: Js<string>,
    key: Js<string>,
    original_link: Js<string>,
    link_expiry: Js<int>,
    supplementary_data: Js<SupplementaryData>,
    time_of_creation: Js<int>,
    time_of_expiry: Js<int>)
  {
    /** No field is left undefined: each holds a value or null. */
    predicate Defined() {
      && !namespace_id.Undefined? && !domain.Undefined? && !key.Undefined?
      && !original_link.Undefined? && !link_expiry.Undefined?
      && !supplementary_data.Undefined? && !time_of_creation.Undefined?
      && !time_of_expiry.Undefined?
    }
  }

  /** The storage record with its short attribute names; an absent attribute is None. */
  datatype DbRecord = DbRecord(
    p: Option<string>,
    id: Option<string>,
    ns: Option<string>,
    ol: Option<string>,
    ex: Option<int>,
    sd: Option<SupplementaryData>,
    toe: Option<int>,
    toc: Option<int>)

  // ---------------------------------------------------------------- joining and splitting

  /** `parts.join(d)` over strings: the pieces in order, `d` between neighbours. */
  function JoinStrings(parts: seq<string>, d: char): (s: string)
    ensures |parts| == 0 ==> s == ""
    ensures |parts| >= 1 ==> parts[0] <= s
  {
    if |parts| == 0 then ""
    else if |parts| == 1 then parts[0]
    else parts[0] + [d] + JoinStrings(parts[1..], d)
  }

  /** `s.split(d)`: the maximal pieces between occurrences of `d`. */
  function Split(s: string, d: char): (parts: seq<string>)
    ensures |parts| >= 1
    ensures forall i :: 0 <= i < |parts| ==> d !in parts[i]
    ensures JoinStrings(parts, d) == s
  {
    if |s| == 0 then [""]
    else
      var rest := Split(s[1..], d);
      if s[0] == d then
        assert s == [d] + s[1..];
        [""] + rest
      else
        var parts := [[s[0]] + rest[0]] + rest[1..];
        assert parts[1..] == rest[1..];
        assert s == [s[0]] + s[1..];
        parts
  }

  lemma {:induction false} SplitNoDelimiter(s: string, d: char)
    requires d !in s
    ensures Split(s, d) == [s]
  {
    if |s| > 0 {
      SplitNoDelimiter(s[1..], d);
      assert [s[0]] + s[1..] == s;
    }
  }

  lemma {:induction false} SplitAtFirstDelimiter(a: string, d: char, b: string)
    requires d !in a
    ensures Split(a + [d] + b, d) == [a] + Split(b, d)
  {
    if |a| == 0 {
      assert a + [d] + b == [d] + b;
      assert ([d] + b)[1..] == b;
    } else {
      assert (a + [d] + b)[1..] == a[1..] + [d] + b;
      SplitAtFirstDelimiter(a[1..], d, b);
      assert [a[0]] + a[1..] == a;
    }
  }

  /** Splitting undoes joining when no piece holds the delimiter. */
  lemma {:induction false} SplitJoinRoundTrip(parts: seq<string>, d: char)
    requires |parts| >= 1
    requires forall i :: 0 <= i < |parts| ==> d !in parts[i]
    ensures Split(JoinStrings(parts, d), d) == parts
  {
    if |parts| == 1 {
      SplitNoDelimiter(parts[0], d);
    } else {
      SplitJoinRoundTrip(parts[1..], d);
      SplitAtFirstDelimiter(parts[0], d, JoinStrings(parts[1..], d));
      assert [parts[0]] + parts[1..] == parts;
    }
  }

  // ---------------------------------------------------------------- sort key codec

  /** `[key, namespace_id].join('&')` (url_redirect_data.js:176-180). */
  function ConstructSortKey(key: Js<string>, namespace_id: Js<string>): (sort_key: string)
    ensures sort_key == Render(key) + [SORT_KEY_DELIMITER] + Render(namespace_id)
  {
    var parts := [Render(key), Render(namespace_id)];
    assert parts[1..] == [Render(namespace_id)];
    assert JoinStrings(parts[1..], SORT_KEY_DELIMITER) == Render(namespace_id);
    assert JoinStrings(parts, SORT_KEY_DELIMITER)
      == parts[0] + [SORT_KEY_DELIMITER] + JoinStrings(parts[1..], SORT_KEY_DELIMITER);
    JoinStrings(parts, SORT_KEY_DELIMITER)
  }

  /** `var [key, namespace_id] = sort_key.split('&')` (url_redirect_data.js:190-197):
      the text before the first '&', and the text between the first and the
      second '&' (undefined when there is no '&'); the rest is dropped. */
  function DeconstructSortKey(sort_key: string): (r: (string, Js<string>))
    ensures SORT_KEY_DELIMITER !in r.0
    ensures r.1.Undefined? <==> SORT_KEY_DELIMITER !in sort_key
    ensures r.1.Undefined? ==> r.0 == sort_key
    ensures r.1.Val? ==> SORT_KEY_DELIMITER !in r.1.value
    ensures r.1.Val? ==>
      var head := r.0 + [SORT_KEY_DELIMITER] + r.1.value;
      |head| <= |sort_key| && sort_key[..|head|] == head &&
      (|head| < |sort_key| ==> sort_key[|head|] == SORT_KEY_DELIMITER)
    ensures !r.1.Null?
  {
    var parts := Split(sort_key, SORT_KEY_DELIMITER);
    if |parts| == 1 then
      (parts[0], Undefined)
    else
      var d := SORT_KEY_DELIMITER;
      var head := parts[0] + [d] + parts[1];
      assert JoinStrings(parts, d) == parts[0] + [d] + JoinStrings(parts[1..], d);
      assert |parts[1..]| == 1 ==> JoinStrings(parts[1..], d) == parts[1];
      assert |parts[1..]| > 1 ==>
        JoinStrings(parts[1..], d) == parts[1] + [d] + JoinStrings(parts[2..], d);
      assert sort_key == head || sort_key == head + [d] + JoinStrings(parts[2..], d);
      assert d in sort_key by {
        assert sort_key[|parts[0]|] == d;
      }
      (parts[0], Val(parts[1]))
  }

  /** For delimiter-free parts the codec round-trips. */
  lemma SortKeyRoundTrip(key: string, namespace_id: string)
    requires SORT_KEY_DELIMITER !in key && SORT_KEY_DELIMITER !in namespace_id
    ensures DeconstructSortKey(ConstructSortKey(Val(key), Val(namespace_id))) == (key, Val(namespace_id))
  {
    SplitAtFirstDelimiter(key, SORT_KEY_DELIMITER, namespace_id);
    SplitNoDelimiter(namespace_id, SORT_KEY_DELIMITER);
  }

  /** Everything after a second '&' is dropped. */
  lemma DeconstructDropsTail(key: string, namespace_id: string, tail: string)
    requires SORT_KEY_DELIMITER !in key && SORT_KEY_DELIMITER !in namespace_id
    ensures DeconstructSortKey(key + [SORT_KEY_DELIMITER] + namespace_id + [SORT_KEY_DELIMITER] + tail)
      == (key, Val(namespace_id))
  {
    var d := SORT_KEY_DELIMITER;
    assert key + [d] + namespace_id + [d] + tail == key + [d] + (namespace_id + [d] + tail);
    SplitAtFirstDelimiter(key, d, namespace_id + [d] + tail);
    SplitAtFirstDelimiter(namespace_id, d, tail);
  }

  /** The lookup prefix `constructSortKey(key)` (namespace absent) is `key&`,
      and it is a prefix of the sort key of that key in every namespace. */
  lemma LookupPrefixCoversNamespaces(key: Js<string>, namespace_id: Js<string>)
    ensures ConstructSortKey(key, Undefined) == Render(key) + [SORT_KEY_DELIMITER]
    ensures var prefix := ConstructSortKey(key, Undefined);
      var id := ConstructSortKey(key, namespace_id);
      |prefix| <= |id| && id[..|prefix|] == prefix
  {
  }

  /** Conversely a sort key that starts with `key&`, for a delimiter-free key,
      deconstructs to that key: a prefix lookup never returns another key. */
  lemma {:induction false} PrefixDeterminesKey(key: string, sort_key: string)
    requires SORT_KEY_DELIMITER !in key
    requires |key| + 1 <= |sort_key| && sort_key[..|key| + 1] == key + [SORT_KEY_DELIMITER]
    ensures DeconstructSortKey(sort_key).0 == key
  {
    var d := SORT_KEY_DELIMITER;
    assert sort_key == key + [d] + sort_key[|key| + 1..];
    SplitAtFirstDelimiter(key, d, sort_key[|key| + 1..]);
  }

  // ---------------------------------------------------------------- record translation

  /** `createData` (url_redirect_data.js:65-84): the eight-field record, each
      field the fallback of its argument. */
  function CreateData(
    namespace_id: Js<string>, domain: Js<string>, key: Js<string>,
    original_link: Js<string>, link_expiry: Js<int>,
    supplementary_data: Js<SupplementaryData>,
    time_of_creation: Js<int>, time_of_expiry: Js<int>): (r: UrlData)
    ensures r.Defined()
    ensures !namespace_id.Undefined? ==> r.namespace_id == namespace_id
    ensures namespace_id.Undefined? ==> r.namespace_id == Null
    ensures !domain.Undefined? ==> r.domain == domain
    ensures domain.Undefined? ==> r.domain == Null
    ensures !key.Undefined? ==> r.key == key
    ensures key.Undefined? ==> r.key == Null
    ensures !original_link.Undefined? ==> r.original_link == original_link
    ensures original_link.Undefined? ==> r.original_link == Null
    ensures !link_expiry.Undefined? ==> r.link_expiry == link_expiry
    ensures link_expiry.Undefined? ==> r.link_expiry == Null
    ensures !supplementary_data.Undefined? ==> r.supplementary_data == supplementary_data
    ensures supplementary_data.Undefined? ==> r.supplementary_data == Null
    ensures !time_of_creation.Undefined? ==> r.time_of_creation == time_of_creation
    ensures time_of_creation.Undefined? ==> r.time_of_creation == Null
    ensures !time_of_expiry.Undefined? ==> r.time_of_expiry == time_of_expiry
    ensures time_of_expiry.Undefined? ==> r.time_of_expiry == Null
  {
    UrlData(
      Fallback(namespace_id), Fallback(domain), Fallback(key), Fallback(original_link),
      Fallback(link_expiry), Fallback(supplementary_data),
      Fallback(time_of_creation), Fallback(time_of_expiry))
  }

  /** `createDataFromDbData` (url_redirect_data.js:94-111), as written: the
      argument order passes `toe` into the time-of-creation slot and `toc`
      into the time-of-expiry slot, and `ex` becomes `link_expiry`.
      The source reads `data['id'].split`, so a record without `id` throws. */
  function CreateDataFromDbData(data: DbRecord): (r: UrlData)
    requires data.id.Some?
    ensures r.Defined()
    ensures r.key == Val(DeconstructSortKey(data.id.value).0)
    ensures r.namespace_id == Fallback(DeconstructSortKey(data.id.value).1)
    ensures r.domain == Fallback(Attr(data.p))
    ensures r.original_link == Fallback(Attr(data.ol))
    ensures r.supplementary_data == Fallback(Attr(data.sd))
    ensures r.link_expiry == Fallback(Attr(data.ex))
    ensures r.time_of_creation == Fallback(Attr(data.toe))
    ensures r.time_of_expiry == Fallback(Attr(data.toc))
  {
    var (key, namespace_id) := DeconstructSortKey(data.id.value);
    CreateData(
      namespace_id,
      Attr(data.p),
      Val(key),
      Fallback(Attr(data.ol)),
      Fallback(Attr(data.ex)),
      Fallback(Attr(data.sd)),
      Fallback(Attr(data.toe)),
      Fallback(Attr(data.toc)))
  }

  /** The storage image of a URL record (url_redirect_data.js:121-164): sparse,
      an attribute is present iff its source field is non-empty; `ex` and `toe`
      both carry `time_of_expiry`, `link_expiry` is never stored. */
  function DbDataOf(data: UrlData): (rec: DbRecord)
    ensures rec.p.Some? <==> !EmptyString(data.domain)
    ensures rec.p.Some? ==> rec.p.value == data.domain.value && rec.p.value != ""
    ensures rec.id.Some? <==> !EmptyString(data.key)
    ensures rec.id.Some? ==> rec.id.value == ConstructSortKey(data.key, data.namespace_id)
    ensures rec.ns.Some? <==> !EmptyString(data.namespace_id)
    ensures rec.ns.Some? ==> rec.ns.value == data.namespace_id.value && rec.ns.value != ""
    ensures rec.ol.Some? <==> !EmptyString(data.original_link)
    ensures rec.ol.Some? ==> rec.ol.value == data.original_link.value && rec.ol.value != ""
    ensures rec.sd.Some? <==> !EmptyObject(data.supplementary_data)
    ensures rec.sd.Some? ==> rec.sd.value == data.supplementary_data.value && |rec.sd.value| > 0
    ensures rec.ex == rec.toe
    ensures rec.toe.Some? <==> !EmptyNumber(data.time_of_expiry)
    ensures rec.toe.Some? ==> rec.toe.value == data.time_of_expiry.value
    ensures rec.toc.Some? <==> !EmptyNumber(data.time_of_creation)
    ensures rec.toc.Some? ==> rec.toc.value == data.time_of_creation.value
  {
    DbRecord(
      p := NonEmptyString(data.domain),
      id := if EmptyString(data.key) then None
            else Some(ConstructSortKey(data.key, data.namespace_id)),
      ns := NonEmptyString(data.namespace_id),
      ol := NonEmptyString(data.original_link),
      ex := NonEmptyNumber(data.time_of_expiry),
      sd := NonEmptyObject(data.supplementary_data),
      toe := NonEmptyNumber(data.time_of_expiry),
      toc := NonEmptyNumber(data.time_of_creation))
  }

  /** `link_expiry` has no storage attribute: changing it changes nothing stored. */
  lemma LinkExpiryNeverStored(data: UrlData, link_expiry: Js<int>)
    ensures DbDataOf(data.(link_expiry := link_expiry)) == DbDataOf(data)
  {
  }

  /** `createDbDataFromUrlData` as the source runs it: start from an empty
      record and add each attribute under its own emptiness guard. */
  method CreateDbDataFromUrlData(data: UrlData) returns (db_record: DbRecord)
    ensures db_record == DbDataOf(data)
  {
    db_record := DbRecord(None, None, None, None, None, None, None, None);
    if !EmptyString(data.domain) {
      db_record := db_record.(p := Some(data.domain.value));
    }
    if !EmptyString(data.key) {
      db_record := db_record.(id := Some(ConstructSortKey(data.key, data.namespace_id)));
    }
    if !EmptyString(data.namespace_id) {
      db_record := db_record.(ns := Some(data.namespace_id.value));
    }
    if !EmptyString(data.original_link) {
      db_record := db_record.(ol := Some(data.original_link.value));
    }
    if !EmptyNumber(data.time_of_expiry) {
      db_record := db_record.(ex := Some(data.time_of_expiry.value));
    }
    if !EmptyObject(data.supplementary_data) {
      db_record := db_record.(sd := Some(data.supplementary_data.value));
    }
    if !EmptyNumber(data.time_of_expiry) {
      db_record := db_record.(toe := Some(data.time_of_expiry.value));
    }
    if !EmptyNumber(data.time_of_creation) {
      db_record := db_record.(toc := Some(data.time_of_creation.value));
    }
  }

  /** A JS field as it comes back from storage: the value when it was stored, null otherwise. */
  function Stored<T>(present: bool, v: Js<T>): Js<T>
    requires present ==> v.Val?
  {
    if present then v else Null
  }

  /** Writing a record and reading it back: key, namespace, domain, link and
      supplementary data come back (empty ones as null), but the times do not
      come back in their slots: `time_of_creation` returns holding the old
      `time_of_expiry`, `time_of_expiry` holding the old `time_of_creation`,
      and `link_expiry` holding the old `time_of_expiry`. */
  lemma StorageRoundTrip(data: UrlData)
    requires !EmptyString(data.key) && SORT_KEY_DELIMITER !in data.key.value
    requires data.namespace_id.Val? && SORT_KEY_DELIMITER !in data.namespace_id.value
    ensures DbDataOf(data).id.Some?
    ensures var back := CreateDataFromDbData(DbDataOf(data));
      && back.key == data.key
      && back.namespace_id == data.namespace_id
      && back.domain == Stored(!EmptyString(data.domain), data.domain)
      && back.original_link == Stored(!EmptyString(data.original_link), data.original_link)
      && back.supplementary_data == Stored(!EmptyObject(data.supplementary_data), data.supplementary_data)
      && back.link_expiry == Stored(!EmptyNumber(data.time_of_expiry), data.time_of_expiry)
      && back.time_of_creation == Stored(!EmptyNumber(data.time_of_expiry), data.time_of_expiry)
      && back.time_of_expiry == Stored(!EmptyNumber(data.time_of_creation), data.time_of_creation)
  {
    SortKeyRoundTrip(data.key.value, data.namespace_id.value);
  }
}
