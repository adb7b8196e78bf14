/** The text normaliser applied to every extracted page
    (`clean_text_data`): absent text passes through, and on a string every
    NUL character is removed. The UTF-8 encode/decode round trip that
    follows is the identity on the strings modelled here. */
module TextCleaning {
  import opened Records

  const NUL: char := '\0'

  /** Number of NUL characters in `s`. */
  function NulCount(s: string): nat
  {
    if s == [] then 0 else (if s[0] == NUL then 1 else 0) + NulCount(s[1..])
  }

  /** `s.replace('\x00', '')`. */
  function StripNul(s: string): (r: string)
    ensures NUL !in r
    ensures |r| == |s| - NulCount(s)
  {
    if s == [] then []
    else if s[0] == NUL then StripNul(s[1..])
    else [s[0]] + StripNul(s[1..])
  }

  /** `clean_text_data(text)`: `None` is returned as it is; a string comes
      back without NUL characters and shorter by exactly their number. */
  function CleanTextData(text: Option<string>): (r: Option<string>)
    ensures r.None? <==> text.None?
    ensures r.Some? ==> NUL !in r.value && |r.value| == |text.value| - NulCount(text.value)
  {
    match text
    case None => None
    case Some(s) => Some(StripNul(s))
  }

  /** Removing NULs distributes over concatenation, so the other characters
      keep their order. */
  lemma {:induction false} StripNulAppend(a: string, b: string)
    ensures StripNul(a + b) == StripNul(a) + StripNul(b)
  {
    if a == [] {
      assert a + b == b;
    } else {
      assert (a + b)[0] == a[0] && (a + b)[1..] == a[1..] + b;
      StripNulAppend(a[1..], b);
    }
  }

  /** Every character other than NUL occurs as often in the output as in the
      input; NUL does not occur at all. */
  lemma {:induction false} StripNulCounts(s: string)
    ensures multiset(StripNul(s)) == multiset(s)[NUL := 0]
  {
    if s != [] {
      StripNulCounts(s[1..]);
      assert s == [s[0]] + s[1..];
    }
  }

  /** A string without NUL is returned unchanged. */
  lemma {:induction false} StripNulNoNul(s: string)
    requires NUL !in s
    ensures StripNul(s) == s
  {
    if s != [] {
      StripNulNoNul(s[1..]);
    }
  }

  /** Cleaning twice is cleaning once. */
  lemma CleanTextIdempotent(text: Option<string>)
    ensures CleanTextData(CleanTextData(text)) == CleanTextData(text)
  {
    if text.Some? {
      StripNulNoNul(StripNul(text.value));
    }
  }

  /** A NUL between two NUL-free strings is dropped and nothing else is,
      as with the sample string of the repository's self-test,
      "Texto com\0caracteres nulos". */
  lemma NulBetween(a: string, b: string)
    requires NUL !in a && NUL !in b
    ensures CleanTextData(Some(a + [NUL] + b)) == Some(a + b)
  {
    StripNulAppend(a + [NUL], b);
    StripNulAppend(a, [NUL]);
    assert StripNul([NUL]) == StripNul([NUL][1..]) == [];
    StripNulNoNul(a);
    StripNulNoNul(b);
    calc {
      StripNul(a + [NUL] + b);
      StripNul(a + [NUL]) + StripNul(b);
      StripNul(a) + StripNul([NUL]) + StripNul(b);
      a + b;
    }
  }
}
