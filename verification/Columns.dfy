/** What PostgreSQL's columns keep of a value: texts of bounded length, times of whole microseconds. */
module Columns {
  import opened Texts

  // Lengths of the text columns that hold what adapters say.
  const PROVIDER_LENGTH := 128
  const REFERENCE_LENGTH := 256
  const REASON_LENGTH := 256
  const REQUEST_REASON_LENGTH := 128
  const SUB_GRADE_LENGTH := 16
  const ACTOR_LENGTH := 256

  // ---- texts ----

  /** Whether `character varying(limit)` takes a text: no U+0000, and nothing but spaces beyond the limit. */
  predicate Fits(s: string, limit: nat) {
    '\0' !in s && forall i :: limit <= i < |s| ==> s[i] == ' '
  }

  predicate FitsOption(s: Option<string>, limit: nat) {
    s.None? || Fits(s.value, limit)
  }

  /** What is stored of a text that fits: spaces beyond the limit are cut off. */
  function Kept(s: string, limit: nat): string {
    if |s| <= limit then s else s[..limit]
  }

  function KeptOption(s: Option<string>, limit: nat): Option<string> {
    if s.None? then None else Some(Kept(s.value, limit))
  }

  lemma {:induction false} TrimStartOfMore(s: string, c: char)
    requires IsSpace(c)
    ensures TrimEnd(TrimStart(s + [c])) == TrimEnd(TrimStart(s))
  {
    if s == "" {
      assert s + [c] == [c] && [c][1..] == "";
    } else if IsSpace(s[0]) {
      TrimStartOfMore(s[1..], c);
      assert (s + [c])[1..] == s[1..] + [c];
    } else {
      assert (s + [c])[..|s|] == s;
    }
  }

  /** The cut changes nothing once white space is trimmed. */
  lemma {:induction false} KeptTrims(s: string, limit: nat)
    requires Fits(s, limit)
    ensures Trim(Kept(s, limit)) == Trim(s)
  {
    if |s| > limit {
      var shorter := s[..|s| - 1];
      assert s == shorter + [' '];
      TrimStartOfMore(shorter, ' ');
      KeptTrims(shorter, limit);
      assert Kept(shorter, limit) == Kept(s, limit);
    }
  }

  lemma {:induction false} TrimStartShrinks(s: string)
    ensures |TrimStart(s)| <= |s| && forall c :: c in TrimStart(s) ==> c in s
  {
    if s != "" && IsSpace(s[0]) {
      TrimStartShrinks(s[1..]);
    }
  }

  lemma {:induction false} TrimEndShrinks(s: string)
    ensures |TrimEnd(s)| <= |s| && forall c :: c in TrimEnd(s) ==> c in s
  {
    if s != "" && IsSpace(s[|s| - 1]) {
      TrimEndShrinks(s[..|s| - 1]);
    }
  }

  /** What fits as it comes fits trimmed. */
  lemma FitsTrimmed(s: string, limit: nat)
    requires Fits(s, limit)
    ensures Fits(Trim(s), limit)
  {
    var kept := Kept(s, limit);
    KeptTrims(s, limit);
    TrimStartShrinks(kept);
    TrimEndShrinks(TrimStart(kept));
  }

  /** A trimmed text fits exactly when it is short enough, and is then kept as it is. */
  lemma TrimmedFits(s: string, limit: nat)
    requires Trim(s) == s
    ensures Fits(s, limit) <==> '\0' !in s && |s| <= limit
    ensures Fits(s, limit) ==> Kept(s, limit) == s
  {
    TrimEndEnds(TrimStart(s));
    if |s| > limit {
      assert s[|s| - 1] != ' ';
    }
  }

  // ---- times ----

  /** Ticks are a tenth of a microsecond, counted from the column's epoch; a fraction is dropped towards it. */
  function KeptTime(ticks: int): int {
    if ticks >= 0 then 10 * (ticks / 10) else -10 * (-ticks / 10)
  }

  lemma KeptTimeIsWhole(ticks: int)
    ensures KeptTime(ticks) == ticks <==> ticks % 10 == 0
  {
  }

  lemma KeptTimeIsMonotone(a: int, b: int)
    requires a <= b
    ensures KeptTime(a) <= KeptTime(b)
    ensures KeptTime(KeptTime(a)) == KeptTime(a)
  {
  }
}
