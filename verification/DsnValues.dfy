/** What a value can be: every text has a quoted and a bare spelling that is read as one value and hidden as one, and
    the keys whose values are hidden are two, in any case of letters. */
module DsnValues {
  import opened Common
  import opened DsnLexer
  import Text

  /** A text between quotes: quotes and backslashes get a backslash before them. */
  function Quoted(v: string): string {
    if v == "" then "'" else (if v[0] == '\'' || v[0] == '\\' then ['\\', v[0]] else [v[0]]) + Quoted(v[1..])
  }

  predicate IsSpecial(c: char) {
    c == '\'' || c == '\\' || c == ' ' || '\t' <= c <= '\r'
  }

  /** A text without quotes: space gets a backslash too. */
  function Bare(v: string): string {
    if v == "" then ""
    else (if IsSpecial(v[0]) then ['\\', v[0]] else [v[0]]) + Bare(v[1..])
  }

  /** The quoted value ends at its closing quote, whatever stands in it and after it. */
  lemma {:induction false} QuotedReads(v: string, rest: string)
    ensures QuotedLen(Quoted(v) + rest) == Some(|Quoted(v)|)
    decreases |v|
  {
    var s := Quoted(v) + rest;
    if v != "" {
      QuotedReads(v[1..], rest);
      var more := Quoted(v[1..]) + rest;
      if v[0] == '\'' || v[0] == '\\' {
        assert s[0] == '\\' && s[2..] == more;
      } else {
        assert s[0] == v[0] && s[1..] == more;
      }
    }
  }

  /** The bare value ends at the first space that has no backslash before it. */
  lemma {:induction false} BareReads(v: string, rest: string)
    requires rest == "" || IsLibpqSpace(rest[0])
    ensures PlainLen(Bare(v) + rest) == Some(|Bare(v)|)
    decreases |v|
  {
    if v != "" {
      BareReads(v[1..], rest);
      SpecialChars(v[0]);
      hide IsSpecial, IsLibpqSpace;
      var s := Bare(v) + rest;
      var more := Bare(v[1..]) + rest;
      if IsSpecial(v[0]) {
        assert s[0] == '\\' && s[2..] == more;
      } else {
        assert s[0] == v[0] && s[1..] == more;
      }
    } else {
      assert Bare(v) + rest == rest;
    }
  }

  lemma SpecialChars(c: char)
    ensures !IsLibpqSpace('\\') && (IsLibpqSpace(c) || c == '\\' ==> IsSpecial(c))
  {
  }

  // ---------- keys ----------

  /** The same letters as a word in lower case, in any case. */
  predicate SameLetters(key: string, word: string) {
    |key| == |word| && forall i :: 0 <= i < |key| ==>
      key[i] == word[i] || ('A' <= key[i] <= 'Z' && key[i] as int + 32 == word[i] as int)
  }

  lemma KeywordChar(c: char)
    requires IsASCIIAlpha(c) || '0' <= c <= '9' || c == '_'
    ensures c != '=' && !IsLibpqSpace(c) && !Text.IsSpace(c)
  {
  }

  lemma KeywordTrimmed(key: string)
    requires IsLibpqKeyword(key)
    ensures Text.Trim(key) == key && '=' !in key && !IsLibpqSpace(key[0])
  {
    forall i | 0 <= i < |key| ensures key[i] != '=' && !IsLibpqSpace(key[i]) && !Text.IsSpace(key[i]) {
      KeywordChar(key[i]);
    }
    assert key != "";
    hide IsLibpqSpace, Text.IsSpace, IsLibpqKeyword;
    assert Text.TrimLeft(key) == key;
    assert Text.TrimRight(key) == key;
  }

  lemma LowerIs(key: string, word: string)
    requires IsLibpqKeyword(key) && forall i :: 0 <= i < |word| ==> 'a' <= word[i] <= 'z'
    ensures Text.Lower(key) == word <==> SameLetters(key, word)
  {
    if |key| == |word| {
      forall i | 0 <= i < |key|
        ensures Text.Lower(key)[i] == word[i] <==>
                (key[i] == word[i] || ('A' <= key[i] <= 'Z' && key[i] as int + 32 == word[i] as int))
      {
        assert Text.Lower(key)[i] == Text.LowerChar(key[i]);
      }
    }
  }

  /** The keys with a secret are these two. */
  lemma SecretKeys(key: string)
    requires IsLibpqKeyword(key)
    ensures IsSecretKey(key) <==> SameLetters(key, "password") || SameLetters(key, "sslpassword")
  {
    hide Text.Lower, Text.Trim, SameLetters, IsLibpqKeyword;
    KeywordTrimmed(key);
    LowerIs(key, "password");
    LowerIs(key, "sslpassword");
  }

  /** A keyword, one to a setting: letters, digits and underscores, no digit first. */
  lemma KeywordIs(key: string)
    ensures IsLibpqKeyword(key) <==>
            (key != "" && !('0' <= key[0] <= '9') && forall i :: 0 <= i < |key| ==>
               ('a' <= key[i] <= 'z' || 'A' <= key[i] <= 'Z' || '0' <= key[i] <= '9' || key[i] == '_'))
  {
    hide Text.Lower;
  }

  // ---------- settings ----------

  lemma KeySetting(key: string, value: string, rest: string)
    requires IsLibpqKeyword(key)
    requires ValueLen(value) == Some(|value|) && !StartsWithSpace(value) && Delimited(value, rest)
    requires Redact(rest).Some?
    ensures Redact(key + "=" + value + rest) ==
            Some(key + "=" + (if IsSecretKey(key) then "***" else value) + Redact(rest).value)
  {
    KeywordTrimmed(key);
    hide Redact, First, IsSecretKey, Text.Trim, IsLibpqKeyword, ValueLen, Delimited, Text.Lower;
    var it := Item("", key, "", value);
    FirstReads(it, rest);
    RedactStep(it, rest);
    BareSpelling(key, value);
    BareSpelling(key, "***");
  }

  /** Whatever the password, quoted it leaves no trace but three stars; and any other value stays as it is. */
  lemma QuotedSetting(key: string, v: string, rest: string)
    requires IsLibpqKeyword(key) && Redact(rest).Some?
    ensures var secret := SameLetters(key, "password") || SameLetters(key, "sslpassword");
            Redact(key + "=" + ("'" + Quoted(v)) + rest) ==
            Some(key + "=" + (if secret then "***" else "'" + Quoted(v)) + Redact(rest).value)
  {
    var value := "'" + Quoted(v);
    SecretKeys(key);
    QuotedValue(v, rest);
    hide Redact, IsSecretKey, IsLibpqKeyword, SameLetters, Quoted, ValueLen, Delimited, StartsWithSpace;
    KeySetting(key, value, rest);
  }

  lemma QuotedValue(v: string, rest: string)
    ensures var value := "'" + Quoted(v);
            ValueLen(value) == Some(|value|) && !StartsWithSpace(value) && Delimited(value, rest)
  {
    QuotedReads(v, "");
    hide QuotedLen, Quoted;
    assert Quoted(v) + "" == Quoted(v) && ("'" + Quoted(v))[1..] == Quoted(v);
  }

  /** The same for a bare one that has a space or the end behind it. */
  lemma BareSetting(key: string, v: string, rest: string)
    requires IsLibpqKeyword(key) && Redact(rest).Some? && v != "" && (rest == "" || IsLibpqSpace(rest[0]))
    ensures var secret := SameLetters(key, "password") || SameLetters(key, "sslpassword");
            Redact(key + "=" + Bare(v) + rest) ==
            Some(key + "=" + (if secret then "***" else Bare(v)) + Redact(rest).value)
  {
    BareReads(v, "");
    assert Bare(v) + "" == Bare(v);
    SecretKeys(key);
    assert ValueLen(Bare(v)) == Some(|Bare(v)|) && !StartsWithSpace(Bare(v)) && Delimited(Bare(v), rest);
    hide Redact, IsSecretKey, IsLibpqKeyword, SameLetters, Bare, ValueLen;
    KeySetting(key, Bare(v), rest);
  }
}
