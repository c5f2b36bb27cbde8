/**
 * The string helpers the plug-in relies on: commons-lang `isBlank`,
 * `String.replace("&", "")` for menu mnemonics and `String.startsWith`.
 */
module Text {
  import opened Outcomes

  /** `Character.isWhitespace`. */
  predicate IsWhitespace(c: char) {
    c == ' ' || c == '\t' || c == '\n' || c == '\r' || c == '\U{000B}' || c == '\U{000C}'
    || ('\U{001C}' <= c <= '\U{001F}')
    || c == '\U{1680}' || ('\U{2000}' <= c <= '\U{2006}') || ('\U{2008}' <= c <= '\U{200A}')
    || c == '\U{2028}' || c == '\U{2029}' || c == '\U{205F}' || c == '\U{3000}'
  }

  /** `StringUtils.isBlank`: null, empty, or whitespace only. */
  predicate IsBlank(s: Option<string>) {
    s.None? || forall i :: 0 <= i < |s.value| ==> IsWhitespace(s.value[i])
  }

  /** `s.replace("&", "")`: drops every mnemonic marker, keeps the rest in order. */
  function StripMnemonics(s: string): (r: string)
    ensures '&' !in r
    ensures multiset(r) == multiset(s)['&' := 0]
  {
    if s == [] then []
    else
      assert s == [s[0]] + s[1..];
      if s[0] == '&' then StripMnemonics(s[1..]) else [s[0]] + StripMnemonics(s[1..])
  }

  /** Stripping works piece by piece, so the kept characters stay in their order. */
  lemma {:induction false} StripMnemonicsAppend(a: string, b: string)
    ensures StripMnemonics(a + b) == StripMnemonics(a) + StripMnemonics(b)
  {
    if a == [] {
      assert a + b == b;
    } else {
      assert (a + b)[0] == a[0];
      assert (a + b)[1..] == a[1..] + b;
      StripMnemonicsAppend(a[1..], b);
    }
  }

  /** A string without markers is left as it is; in particular stripping is idempotent. */
  lemma {:induction false} StripMnemonicsKeepsPlainText(s: string)
    requires '&' !in s
    ensures StripMnemonics(s) == s
  {
    if s != [] {
      assert s[0] in s;
      assert forall c :: c in s[1..] ==> c in s;
      StripMnemonicsKeepsPlainText(s[1..]);
    }
  }

  /** `s.startsWith(prefix)`. */
  predicate StartsWith(s: string, prefix: string) {
    |prefix| <= |s| && s[..|prefix|] == prefix
  }
}
