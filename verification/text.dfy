/** String operations both implementations rely on: decimal rendering of
    integers (Python's str() of an int and C++'s std::to_string), removal of
    every occurrence of a character (Python's str.replace(c, "") and C++'s
    erase/remove idiom), the first-occurrence searches of std::string::find,
    and the lexicographic order of std::string that std::map iterates by. */
module Text {
  import opened Wrappers

  // ---------------------------------------------------------------------
  // Decimal rendering
  // ---------------------------------------------------------------------

  predicate IsDigit(c: char) {
    '0' <= c <= '9'
  }

  function DigitChar(d: nat): (c: char)
    requires d < 10
    ensures IsDigit(c)
  {
    (('0' as int) + d) as char
  }

  /** Decimal digits of a natural number, most significant first, with no
      leading zero. */
  function NatToDecimal(n: nat): (s: string)
    ensures |s| > 0
    ensures forall i :: 0 <= i < |s| ==> IsDigit(s[i])
    ensures s[0] == '0' ==> n == 0
  {
    if n < 10 then [DigitChar(n)] else NatToDecimal(n / 10) + [DigitChar(n % 10)]
  }

  /** Python's str(i) and C++'s std::to_string(i) for an integer i. */
  function IntToDecimal(i: int): (s: string)
    ensures |s| > 0
    ensures s[0] == '-' <==> i < 0
    ensures forall k :: 0 < k < |s| ==> IsDigit(s[k])
  {
    if i < 0 then "-" + NatToDecimal(-i) else NatToDecimal(i)
  }

  /** The value of a string of decimal digits; the reading direction of
      NatToDecimal. */
  function DecimalValue(s: string): nat
  {
    if |s| == 0 then 0
    else
      var d := s[|s| - 1] as int - '0' as int;
      DecimalValue(s[..|s| - 1]) * 10 + (if 0 <= d then d else 0)
  }

  function IntValue(s: string): int
  {
    if |s| > 0 && s[0] == '-' then 0 - (DecimalValue(s[1..]) as int) else DecimalValue(s)
  }

  lemma {:induction false} NatDecimalRoundTrip(n: nat)
    ensures DecimalValue(NatToDecimal(n)) == n
  {
    var s := NatToDecimal(n);
    if n < 10 {
      assert s[..|s| - 1] == [];
    } else {
      var prefix := NatToDecimal(n / 10);
      assert s == prefix + [DigitChar(n % 10)];
      assert s[..|s| - 1] == prefix;
      NatDecimalRoundTrip(n / 10);
    }
  }

  /** Rendering an integer in decimal loses nothing: reading it back gives
      the integer, so distinct integers render differently. */
  lemma IntDecimalRoundTrip(i: int)
    ensures IntValue(IntToDecimal(i)) == i
  {
    if i < 0 {
      assert IntToDecimal(i)[1..] == NatToDecimal(-i);
      NatDecimalRoundTrip(-i);
    } else {
      NatDecimalRoundTrip(i);
    }
  }

  // ---------------------------------------------------------------------
  // Character removal
  // ---------------------------------------------------------------------

  /** s with every occurrence of c deleted and every other character kept,
      in order (RemoveCounts). */
  function Remove(s: string, c: char): (r: string)
    ensures c !in r
    ensures |r| <= |s|
  {
    if |s| == 0 then []
    else (if s[0] == c then [] else [s[0]]) + Remove(s[1..], c)
  }

  /** Removal adds no character. */
  lemma {:induction false} RemoveAbsent(s: string, c: char, d: char)
    requires d !in s
    ensures d !in Remove(s, c)
  {
    if |s| > 0 {
      RemoveAbsent(s[1..], c, d);
    }
  }

  /** Removal deletes every c and no other character. */
  lemma {:induction false} RemoveCounts(s: string, c: char)
    ensures multiset(Remove(s, c)) == multiset(s)[c := 0]
  {
    if |s| > 0 {
      assert s == [s[0]] + s[1..];
      RemoveCounts(s[1..], c);
    }
  }

  lemma {:induction false} RemoveConcat(a: string, b: string, c: char)
    ensures Remove(a + b, c) == Remove(a, c) + Remove(b, c)
  {
    if |a| > 0 {
      assert (a + b)[1..] == a[1..] + b;
      RemoveConcat(a[1..], b, c);
    } else {
      assert a + b == b;
    }
  }

  /** Removal changes a string exactly when the character occurs in it. */
  lemma {:induction false} RemoveIdentityIff(s: string, c: char)
    ensures Remove(s, c) == s <==> c !in s
  {
    if |s| > 0 && c !in s {
      assert c !in s[1..];
      RemoveIdentityIff(s[1..], c);
    }
  }

  /** The blunt sanitisation both implementations apply: every double quote
      is deleted, then every space character. */
  function StripQuotesAndSpaces(s: string): (r: string)
    ensures '"' !in r && ' ' !in r
    ensures |r| <= |s|
  {
    var t := Remove(s, '"');
    RemoveAbsent(t, ' ', '"');
    Remove(t, ' ')
  }

  /** Stripping deletes every quote and space and no other character. */
  lemma StripCounts(s: string)
    ensures multiset(StripQuotesAndSpaces(s)) == multiset(s)['"' := 0][' ' := 0]
  {
    RemoveCounts(s, '"');
    RemoveCounts(Remove(s, '"'), ' ');
  }

  /** Regrouping a concatenation, for proofs whose terms are too large to
      let the solver find this on its own. */
  lemma ConcatAssoc(x: string, y: string, z: string)
    ensures x + (y + z) == (x + y) + z
  {
  }

  lemma StripIdempotent(s: string)
    ensures StripQuotesAndSpaces(StripQuotesAndSpaces(s)) == StripQuotesAndSpaces(s)
  {
    var t := StripQuotesAndSpaces(s);
    RemoveIdentityIff(t, '"');
    RemoveIdentityIff(t, ' ');
  }

  lemma StripConcat(a: string, b: string)
    ensures StripQuotesAndSpaces(a + b) == StripQuotesAndSpaces(a) + StripQuotesAndSpaces(b)
  {
    RemoveConcat(a, b, '"');
    RemoveConcat(Remove(a, '"'), Remove(b, '"'), ' ');
  }

  /** A string without quotes or spaces is left exactly as it is. */
  lemma StripClean(s: string)
    requires '"' !in s && ' ' !in s
    ensures StripQuotesAndSpaces(s) == s
  {
    RemoveIdentityIff(s, '"');
    RemoveIdentityIff(s, ' ');
  }

  // ---------------------------------------------------------------------
  // First-occurrence search (std::string::find)
  // ---------------------------------------------------------------------

  /** The first index at or after `from` holding c, or None (npos). */
  function FindChar(s: string, c: char, from: nat): (r: Option<nat>)
    decreases |s| - from
    ensures r.Some? ==> from <= r.value < |s| && s[r.value] == c
    ensures r.Some? ==> forall j :: from <= j < r.value ==> s[j] != c
    ensures r.None? ==> forall j :: from <= j < |s| ==> s[j] != c
  {
    if from >= |s| then None
    else if s[from] == c then Some(from)
    else FindChar(s, c, from + 1)
  }

  predicate OccursAt(s: string, t: string, i: nat) {
    i + |t| <= |s| && s[i..i + |t|] == t
  }

  /** The first index at or after `from` where t occurs in s, or None. */
  function FindText(s: string, t: string, from: nat): (r: Option<nat>)
    decreases |s| - from
    ensures r.Some? ==> from <= r.value && OccursAt(s, t, r.value)
    ensures r.Some? ==> forall j :: from <= j < r.value ==> !OccursAt(s, t, j)
    ensures r.None? ==> forall j :: from <= j ==> !OccursAt(s, t, j)
  {
    if from + |t| > |s| then None
    else if s[from..from + |t|] == t then Some(from)
    else FindText(s, t, from + 1)
  }

  // ---------------------------------------------------------------------
  // Lexicographic order (std::string operator<)
  // ---------------------------------------------------------------------

  predicate Less(a: string, b: string) {
    if |a| == 0 then |b| > 0
    else |b| > 0 && (a[0] < b[0] || (a[0] == b[0] && Less(a[1..], b[1..])))
  }

  lemma {:induction false} LessIrreflexive(a: string)
    ensures !Less(a, a)
  {
    if |a| > 0 {
      LessIrreflexive(a[1..]);
    }
  }

  lemma {:induction false} LessTransitive(a: string, b: string, c: string)
    requires Less(a, b) && Less(b, c)
    ensures Less(a, c)
  {
    if |a| > 0 && a[0] == b[0] && b[0] == c[0] {
      LessTransitive(a[1..], b[1..], c[1..]);
    }
  }

  lemma {:induction false} LessTotal(a: string, b: string)
    requires a != b
    ensures Less(a, b) || Less(b, a)
  {
    if |a| > 0 && |b| > 0 && a[0] == b[0] {
      assert a == [a[0]] + a[1..] && b == [b[0]] + b[1..];
      LessTotal(a[1..], b[1..]);
    }
  }
}
