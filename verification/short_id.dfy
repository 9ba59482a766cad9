/** Generated account IDs: twelve characters drawn at random or, when the random source fails, spelled from the
    clock. */
module ShortId {
  import opened Text

  /** The character of a base-62 digit. */
  function Chars(digit: int): char
    requires 0 <= digit < 62
  {
    if digit < 26 then 'A' + digit as char
    else if digit < 52 then 'a' + (digit - 26) as char
    else '0' + (digit - 52) as char
  }

  const ALPHABET := "ABCDEFGHIJKLMNOPQRSTUVWXYZ" + "abcdefghijklmnopqrstuvwxyz" + "0123456789"

  /** The characters are those of the source's alphabet, in its order. */
  lemma AlphabetOfSource(digit: int)
    requires 0 <= digit < 62
    ensures |ALPHABET| == 62 && ALPHABET[digit] == Chars(digit)
  {
  }

  function DigitOf(c: char): int {
    if 'A' <= c <= 'Z' then c as int - 'A' as int
    else if 'a' <= c <= 'z' then c as int - 'a' as int + 26
    else c as int - '0' as int + 52
  }

  lemma CharsAreDigits(digit: int)
    requires 0 <= digit < 62
    ensures IsLetter(Chars(digit)) || IsDigit(Chars(digit))
    ensures DigitOf(Chars(digit)) == digit
  {
  }

  /** Readings of the clock, as UnixNano reports the times after 1970 that int64 can hold; every reading but the
      first has room for the index that is added to it. One call takes at most thirteen. */
  predicate IsClock(clock: seq<int>) {
    && |clock| == 13 && 0 <= clock[0] < 0x8000_0000_0000_0000
    && forall k | 1 <= k < 13 :: 0 <= clock[k] <= 0x8000_0000_0000_0000 - 12
  }

  /** What the fallback holds before position i, and how many readings it has taken: each position takes a base-62 digit
      off, and a used-up value is replaced by the next reading. */
  function Left(clock: seq<int>, i: nat): (left: (int, nat))
    requires IsClock(clock) && i <= 12
    ensures left.0 >= 0 && 0 < left.1 <= i + 1
  {
    if i == 0 then (clock[0], 1)
    else
      var (value, taken) := Left(clock, i - 1);
      if value / 62 == 0 then (clock[taken] + i - 1, taken + 1) else (value / 62, taken)
  }

  /** The first n characters of the fallback ID. */
  function Spelled(clock: seq<int>, n: nat): (s: string)
    requires IsClock(clock) && n <= 12
    ensures |s| == n
  {
    if n == 0 then "" else Spelled(clock, n - 1) + [Chars(Left(clock, n - 1).0 % 62)]
  }

  lemma {:induction false} SpelledAt(clock: seq<int>, n: nat, j: nat)
    requires IsClock(clock) && j < n <= 12
    ensures Spelled(clock, n)[j] == Chars(Left(clock, j).0 % 62)
  {
    if j < n - 1 {
      SpelledAt(clock, n - 1, j);
    }
  }

  lemma SpelledIsShortId(clock: seq<int>)
    requires IsClock(clock)
    ensures IsShortId(Spelled(clock, 12))
  {
    forall j | 0 <= j < 12 ensures IsLetter(Spelled(clock, 12)[j]) || IsDigit(Spelled(clock, 12)[j]) {
      SpelledAt(clock, 12, j);
      CharsAreDigits(Left(clock, j).0 % 62);
    }
  }

  /** The loop of the fallback. */
  method SpellClock(b: array<char>, clock: seq<int>)
    requires b.Length == 12 && IsClock(clock)
    modifies b
    ensures b[..] == Spelled(clock, 12)
  {
    var fallback, taken := clock[0], 1;
    for i := 0 to 12
      invariant (fallback, taken) == Left(clock, i)
      invariant b[..i] == Spelled(clock, i)
    {
      b[i] := Chars(fallback % 62);
      fallback := fallback / 62;
      if fallback == 0 {
        fallback, taken := clock[taken] + i, taken + 1;
      }
    }
    assert b[..] == b[..12];
  }

  /** The loop that turns random bytes into characters. */
  method MapBytes(b: array<char>)
    requires b.Length == 12
    modifies b
    ensures forall i | 0 <= i < 12 :: (IsLetter(b[i]) || IsDigit(b[i])) && DigitOf(b[i]) == old(b[i]) as int % 62
  {
    for i := 0 to 12
      invariant forall j | 0 <= j < i :: (IsLetter(b[j]) || IsDigit(b[j])) && DigitOf(b[j]) == old(b[j]) as int % 62
      invariant forall j | i <= j < 12 :: b[j] == old(b[j])
    {
      b[i] := Chars(b[i] as int % 62);
    }
  }

  /** newShortID; random holds the bytes that were read, or None when reading them failed. */
  method NewShortID(random: Option<seq<char>>, clock: seq<int>) returns (id: string)
    requires random.Some? ==> |random.value| == 12
    requires IsClock(clock)
    ensures IsShortId(id) && ValidRecordId(id)
    ensures random.Some? ==> forall i | 0 <= i < 12 :: DigitOf(id[i]) == random.value[i] as int % 62
    ensures random.None? ==> id == Spelled(clock, 12)
  {
    var b := new char[12](i requires 0 <= i < 12 && (random.Some? ==> |random.value| == 12) =>
      if random.Some? then random.value[i] else '\0');
    if random.None? {
      SpellClock(b, clock);
      SpelledIsShortId(clock);
    } else {
      MapBytes(b);
    }
    return b[..];
  }

  // ---------- reading the clock back ----------

  function Pow62(n: nat): (p: nat)
    ensures p > 0
  {
    if n == 0 then 1 else 62 * Pow62(n - 1)
  }

  /** The number spelled by base-62 digits, the lowest first. */
  function ValueOf(s: string): int {
    if s == "" then 0 else DigitOf(s[0]) + 62 * ValueOf(s[1..])
  }

  /** A value of n digits left at position i is spelled out in full from there. */
  lemma {:induction false} SpelledInFull(clock: seq<int>, i: nat, n: nat)
    requires IsClock(clock) && 0 < n && i + n < 12 && Pow62(n - 1) <= Left(clock, i).0 < Pow62(n)
    ensures ValueOf(Spelled(clock, 12)[i..i + n]) == Left(clock, i).0
    decreases n
  {
    var s := Spelled(clock, 12)[i..i + n];
    assert s[1..] == Spelled(clock, 12)[i + 1..i + n];
    assert Pow62(n) == 62 * Pow62(n - 1);
    SpelledAt(clock, 12, i);
    CharsAreDigits(Left(clock, i).0 % 62);
    if n > 1 {
      assert Pow62(n - 1) == 62 * Pow62(n - 2);
      SpelledInFull(clock, i + 1, n - 1);
    }
  }

  /** Readings from 62^10 nanoseconds on, which was in 1996, have eleven digits for as long as int64 holds them. */
  lemma ElevenDigits()
    ensures Pow62(10) == 839299365868340224 && Pow62(11) > 0x8000_0000_0000_0000
  {
    assert Pow62(2) == 3844;
    assert Pow62(4) == 3844 * 3844;
    assert Pow62(6) == 3844 * 3844 * 3844;
    assert Pow62(8) == 3844 * 3844 * 3844 * 3844;
  }

  /** The fallback ID gives the reading back, so two readings give two IDs. */
  lemma FallbackReadsBack(clock: seq<int>)
    requires IsClock(clock) && 839299365868340224 <= clock[0]
    ensures ValueOf(Spelled(clock, 12)[..11]) == clock[0]
  {
    ElevenDigits();
    SpelledInFull(clock, 0, 11);
    assert Spelled(clock, 12)[..11] == Spelled(clock, 12)[0..11];
  }

  lemma FallbackIsInjective(clock: seq<int>, clock': seq<int>)
    requires IsClock(clock) && IsClock(clock')
    requires 839299365868340224 <= clock[0] && 839299365868340224 <= clock'[0]
    requires Spelled(clock, 12) == Spelled(clock', 12)
    ensures clock[0] == clock'[0]
  {
    FallbackReadsBack(clock);
    FallbackReadsBack(clock');
  }
}
