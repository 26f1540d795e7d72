/** Validation and clean-up of user-supplied short keys. */
module UrlRedirectInput {
  import opened Config

  /** `/^[0-9a-z]*$/.test(s)` (KEY_CHARSET_REGX). */
  function MatchesKeyCharset(s: string): (ok: bool)
    ensures ok <==> forall i :: 0 <= i < |s| ==> IsKeyChar(s[i])
  {
    |s| == 0 || (IsKeyChar(s[0]) && MatchesKeyCharset(s[1..]))
  }

  /** `Lib.Utils.validateStringRegx` with the key charset: the pattern matches
      and the length lies within [min_length, max_length]. */
  function ValidateStringRegx(s: string, min_length: nat, max_length: nat): (ok: bool)
    ensures ok <==>
      (forall i :: 0 <= i < |s| ==> IsKeyChar(s[i]))
      && min_length <= |s| <= max_length
  {
    MatchesKeyCharset(s) && min_length <= |s| <= max_length
  }

  /** `validateUrlKey` (url_redirect_input.js:63-68). */
  function ValidateUrlKey(key: string): (ok: bool)
    ensures ok <==>
      (forall i :: 0 <= i < |key| ==> IsKeyChar(key[i]))
      && KEY_MIN_LENGTH <= |key| <= KEY_MAX_LENGTH
  {
    ValidateStringRegx(key, KEY_MIN_LENGTH, KEY_MAX_LENGTH)
  }

  /** ASCII `toLowerCase` of one character. */
  function ToLowerAscii(c: char): (r: char)
    ensures 'A' <= c <= 'Z' ==> 'a' <= r <= 'z' && r as int == c as int + 32
    ensures !('A' <= c <= 'Z') ==> r == c
  {
    if 'A' <= c <= 'Z' then (c as int + 32) as char else c
  }

  function LowerCase(s: string): (r: string)
    ensures |r| == |s|
    ensures forall i :: 0 <= i < |s| ==> r[i] == ToLowerAscii(s[i])
  {
    seq(|s|, i requires 0 <= i < |s| => ToLowerAscii(s[i]))
  }

  /** `s.replace(/[^0-9a-z]/g, '')` (KEY_SANATIZE_REGX): delete every character
      outside the class. */
  function SanitizeUsingRegx(s: string): (r: string)
    ensures |r| <= |s|
    ensures forall i :: 0 <= i < |r| ==> IsKeyChar(r[i])
  {
    if |s| == 0 then ""
    else if IsKeyChar(s[0]) then [s[0]] + SanitizeUsingRegx(s[1..])
    else SanitizeUsingRegx(s[1..])
  }

  /** `sanitizeUrlKey` (url_redirect_input.js:80-85): lower-case, then filter. */
  function SanitizeUrlKey(key: string): (r: string)
    ensures |r| <= |key|
    ensures forall i :: 0 <= i < |r| ==> IsKeyChar(r[i])
  {
    SanitizeUsingRegx(LowerCase(key))
  }

  /** `a` is `b` with some characters deleted (order kept). */
  predicate IsSubsequence(a: string, b: string)
  {
    if |a| == 0 then true
    else if |b| == 0 then false
    else if a[0] == b[0] then IsSubsequence(a[1..], b[1..])
    else IsSubsequence(a, b[1..])
  }

  /** The filter keeps characters in their order ... */
  lemma {:induction false} SanitizeIsSubsequence(s: string)
    ensures IsSubsequence(SanitizeUsingRegx(s), s)
  {
    if |s| > 0 {
      SanitizeIsSubsequence(s[1..]);
      var rest := SanitizeUsingRegx(s[1..]);
      if IsKeyChar(s[0]) {
        assert ([s[0]] + rest)[1..] == rest;
      } else if |rest| > 0 {
        assert rest[0] != s[0];
      }
    }
  }

  /** ... keeps every occurrence of a class character and nothing else. */
  lemma {:induction false} SanitizeCounts(s: string)
    ensures forall c :: multiset(SanitizeUsingRegx(s))[c] == if IsKeyChar(c) then multiset(s)[c] else 0
  {
    if |s| > 0 {
      SanitizeCounts(s[1..]);
      assert s == [s[0]] + s[1..];
      assert multiset(s) == multiset([s[0]]) + multiset(s[1..]);
    }
  }

  /** A string of class characters is left untouched by the filter. */
  lemma {:induction false} SanitizeFixesKeyStrings(s: string)
    requires forall i :: 0 <= i < |s| ==> IsKeyChar(s[i])
    ensures SanitizeUsingRegx(s) == s
  {
    if |s| > 0 {
      SanitizeFixesKeyStrings(s[1..]);
      assert [s[0]] + s[1..] == s;
    }
  }

  /** A key already made only of `[0-9a-z]` is returned unchanged. */
  lemma SanitizeUrlKeyKeepsValidKey(key: string)
    requires forall i :: 0 <= i < |key| ==> IsKeyChar(key[i])
    ensures SanitizeUrlKey(key) == key
  {
    assert LowerCase(key) == key;
    SanitizeFixesKeyStrings(key);
  }

  /** Sanitising twice is sanitising once. */
  lemma SanitizeUrlKeyIdempotent(key: string)
    ensures SanitizeUrlKey(SanitizeUrlKey(key)) == SanitizeUrlKey(key)
  {
    SanitizeUrlKeyKeepsValidKey(SanitizeUrlKey(key));
  }

  /** The result is exactly the class characters of the lower-cased key, in
      order: an in-order subsequence holding every such occurrence. In
      particular an upper-case ASCII letter survives as its lower-case form. */
  lemma SanitizeUrlKeyCharacterises(key: string)
    ensures IsSubsequence(SanitizeUrlKey(key), LowerCase(key))
    ensures forall c ::
      multiset(SanitizeUrlKey(key))[c] == if IsKeyChar(c) then multiset(LowerCase(key))[c] else 0
    ensures forall i :: 0 <= i < |key| && 'A' <= key[i] <= 'Z' ==>
      ToLowerAscii(key[i]) in SanitizeUrlKey(key)
  {
    SanitizeIsSubsequence(LowerCase(key));
    SanitizeCounts(LowerCase(key));
    forall i | 0 <= i < |key| && 'A' <= key[i] <= 'Z'
      ensures ToLowerAscii(key[i]) in SanitizeUrlKey(key)
    {
      var c := ToLowerAscii(key[i]);
      assert LowerCase(key)[i] == c;
      assert c in multiset(LowerCase(key));
      assert multiset(SanitizeUrlKey(key))[c] > 0;
    }
  }

  /** A sanitised key passes validation exactly when its length is in range. */
  lemma ValidateSanitizedKey(key: string)
    ensures ValidateUrlKey(SanitizeUrlKey(key)) <==>
      KEY_MIN_LENGTH <= |SanitizeUrlKey(key)| <= KEY_MAX_LENGTH
  {
  }
}
