/** The .NET string helpers the services rely on: trimming and blank tests. */
module Texts {

  datatype Option<+T> = None | Some(value: T)

  /** `char.IsWhiteSpace`. */
  predicate IsSpace(c: char) {
    || '\t' <= c <= '\r'
    || c == ' '
    || c == '\U{85}'
    || c == '\U{A0}'
    || c == '\U{1680}'
    || '\U{2000}' <= c <= '\U{200A}'
    || c == '\U{2028}' || c == '\U{2029}' || c == '\U{202F}' || c == '\U{205F}' || c == '\U{3000}'
  }

  function TrimStart(s: string): string {
    if s != "" && IsSpace(s[0]) then TrimStart(s[1..]) else s
  }

  function TrimEnd(s: string): string {
    if s != "" && IsSpace(s[|s| - 1]) then TrimEnd(s[..|s| - 1]) else s
  }

  function Trim(s: string): string {
    TrimEnd(TrimStart(s))
  }

  /** `string.IsNullOrWhiteSpace` on a non-null string. */
  predicate Blank(s: string) {
    Trim(s) == ""
  }

  /** `string.IsNullOrWhiteSpace` on a nullable string. */
  predicate BlankOption(s: Option<string>) {
    s.None? || Blank(s.value)
  }

  /** Blank becomes null, anything else is trimmed. */
  function NormalizeOptional(s: Option<string>): Option<string> {
    if BlankOption(s) then None else Some(Trim(s.value))
  }

  /** A blank provider name falls back to the adapter's own. */
  function ProviderOr(given: string, fallback: string): string {
    if Blank(given) then fallback else Trim(given)
  }

  lemma EmptyIsBlank()
    ensures Blank("")
  {
  }

  /** A text with no white space at either end is trimmed already. */
  lemma VisibleEnds(s: string)
    requires s != "" && !IsSpace(s[0]) && !IsSpace(s[|s| - 1])
    ensures Trim(s) == s && !Blank(s)
  {
    assert TrimStart(s) == s;
  }

  /** A text that begins with a visible character is not blank. */
  lemma VisibleStart(s: string)
    requires s != "" && !IsSpace(s[0])
    ensures !Blank(s)
  {
    assert TrimStart(s) == s;
    TrimEndKeepsStart(s);
  }

  lemma {:induction false} TrimEndKeepsStart(s: string)
    requires s != "" && !IsSpace(s[0])
    ensures TrimEnd(s) != ""
  {
    if IsSpace(s[|s| - 1]) {
      TrimEndKeepsStart(s[..|s| - 1]);
    }
  }

  lemma {:induction false} TrimStartEnds(s: string)
    ensures TrimStart(s) == "" || !IsSpace(TrimStart(s)[0])
  {
    if s != "" && IsSpace(s[0]) {
      TrimStartEnds(s[1..]);
    }
  }

  lemma {:induction false} TrimEndEnds(s: string)
    ensures TrimEnd(s) == "" || (!IsSpace(TrimEnd(s)[|TrimEnd(s)| - 1]) && TrimEnd(s)[0] == s[0])
  {
    if s != "" && IsSpace(s[|s| - 1]) {
      TrimEndEnds(s[..|s| - 1]);
    }
  }

  /** Trimming twice is trimming once, so a reference compared trimmed on both sides compares its stored form. */
  lemma TrimIdempotent(s: string)
    ensures Trim(Trim(s)) == Trim(s)
    ensures Blank(Trim(s)) <==> Trim(s) == ""
  {
    TrimStartEnds(s);
    TrimEndEnds(TrimStart(s));
  }
}
