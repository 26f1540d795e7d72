/** Constants of the library's configuration file. */
module Config {

  const KEY_MIN_LENGTH: nat := 6
  const KEY_MAX_LENGTH: nat := 12
  const KEY_CHARSET: string := "0123456789abcdefghijklmnopqrstuvwxyz"
  const DEFAULT_KEY_LENGTH: nat := 6

  /** The character class `[0-9a-z]` of KEY_SANATIZE_REGX and KEY_CHARSET_REGX. */
  predicate IsKeyChar(c: char) {
    ('0' <= c <= '9') || ('a' <= c <= 'z')
  }

  /** KEY_CHARSET is the base-36 alphabet: 36 symbols, exactly the class `[0-9a-z]`. */
  lemma KeyCharsetIsKeyClass()
    ensures |KEY_CHARSET| == 36
    ensures forall c :: c in KEY_CHARSET <==> IsKeyChar(c)
  {
    forall c | IsKeyChar(c) ensures c in KEY_CHARSET {
      var i := if c <= '9' then c as int - '0' as int else 10 + c as int - 'a' as int;
      assert KEY_CHARSET[i] == c;
    }
  }
}
