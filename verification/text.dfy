/** Text operations the account service relies on: trimming, byte lengths, the ID and
    permission-code patterns, and the order in which Go compares strings. */
module Text {

  datatype Option<+T> = None | Some(value: T)

  // ---------- trimming ----------

  /** Unicode white space, as strings.TrimSpace removes it. */
  predicate IsSpace(c: char) {
    || c == ' ' || '\t' <= c <= '\r' || c == '\U{85}' || c == '\U{A0}' || c == '\U{1680}'
    || '\U{2000}' <= c <= '\U{200A}' || c == '\U{2028}' || c == '\U{2029}' || c == '\U{202F}'
    || c == '\U{205F}' || c == '\U{3000}'
  }

  predicate Trimmed(s: string) {
    s == [] || (!IsSpace(s[0]) && !IsSpace(s[|s| - 1]))
  }

  function TrimLeft(s: string): (r: string)
    ensures r == [] || !IsSpace(r[0])
    ensures s != [] && !IsSpace(s[0]) ==> r == s
  {
    if s != [] && IsSpace(s[0]) then TrimLeft(s[1..]) else s
  }

  function TrimRight(s: string): (r: string)
    ensures r <= s
    ensures r == [] || !IsSpace(r[|r| - 1])
    ensures s != [] && !IsSpace(s[|s| - 1]) ==> r == s
  {
    if s != [] && IsSpace(s[|s| - 1]) then TrimRight(s[..|s| - 1]) else s
  }

  function TrimSpace(s: string): (r: string)
    ensures Trimmed(r)
    ensures Trimmed(s) ==> r == s
  {
    TrimRight(TrimLeft(s))
  }

  /** The white space is that of Unicode, character by character. */
  lemma SpacesOfUnicode(c: char)
    ensures IsSpace(c) <==>
      c in [' ', '\t', '\n', '\U{0B}', '\U{0C}', '\r', '\U{85}', '\U{A0}', '\U{1680}', '\U{2000}', '\U{2001}',
            '\U{2002}', '\U{2003}', '\U{2004}', '\U{2005}', '\U{2006}', '\U{2007}', '\U{2008}', '\U{2009}', '\U{200A}',
            '\U{2028}', '\U{2029}', '\U{202F}', '\U{205F}', '\U{3000}']
  {
  }

  predicate AllSpace(s: string) { forall i | 0 <= i < |s| :: IsSpace(s[i]) }

  lemma {:induction false} TrimLeftIs(l: string, t: string)
    requires AllSpace(l) && (t == "" || !IsSpace(t[0]))
    ensures TrimLeft(l + t) == t
  {
    if l == "" {
      assert l + t == t;
    } else {
      assert (l + t)[1..] == l[1..] + t;
      TrimLeftIs(l[1..], t);
    }
  }

  lemma {:induction false} TrimRightIs(t: string, r: string)
    requires AllSpace(r) && (t == "" || !IsSpace(t[|t| - 1]))
    ensures TrimRight(t + r) == t
  {
    if r == "" {
      assert t + r == t;
    } else {
      assert (t + r)[..|t + r| - 1] == t + r[..|r| - 1];
      TrimRightIs(t, r[..|r| - 1]);
    }
  }

  /** Trimming gives the text between the white space on either side. */
  lemma TrimSpaceIs(l: string, t: string, r: string)
    requires AllSpace(l) && AllSpace(r) && Trimmed(t)
    ensures TrimSpace(l + t + r) == t
  {
    if t == "" {
      TrimLeftIs(l + r, "");
      assert l + t + r == l + r + "";
    } else {
      TrimLeftIs(l, t + r);
      TrimRightIs(t, r);
      assert l + t + r == l + (t + r);
    }
  }

  // ---------- lengths and patterns ----------

  /** Bytes that c occupies in UTF-8; Go's len counts bytes. */
  function Utf8Width(c: char): nat {
    if c < '\U{80}' then 1 else if c < '\U{800}' then 2 else if c < '\U{10000}' then 3 else 4
  }

  function ByteLen(s: string): nat {
    if s == [] then 0 else Utf8Width(s[0]) + ByteLen(s[1..])
  }

  function Pow2(n: nat): nat { if n == 0 then 1 else 2 * Pow2(n - 1) }

  /** One byte carries 7 bits, and n bytes from two on carry 5n + 1. */
  function Utf8Bits(n: nat): nat { if n == 1 then 7 else 5 * n + 1 }

  /** A character takes as few bytes as can carry it. */
  lemma WidthIsLeast(c: char)
    ensures 1 <= Utf8Width(c) <= 4 && c as int < Pow2(Utf8Bits(Utf8Width(c)))
    ensures Utf8Width(c) > 1 ==> c as int >= Pow2(Utf8Bits(Utf8Width(c) - 1))
  {
    assert Pow2(7) == 128 && Pow2(11) == 2048;
    assert Pow2(16) == 32 * Pow2(11) && Pow2(21) == 32 * Pow2(16);
  }

  lemma {:induction false} ByteLenAdds(a: string, b: string)
    ensures ByteLen(a + b) == ByteLen(a) + ByteLen(b)
    ensures |a| == 1 ==> ByteLen(a) == Utf8Width(a[0])
  {
    if a == "" {
      assert a + b == b;
    } else {
      assert (a + b)[1..] == a[1..] + b;
      ByteLenAdds(a[1..], b);
    }
  }

  predicate IsDigit(c: char) { '0' <= c <= '9' }

  predicate IsLetter(c: char) { 'A' <= c <= 'Z' || 'a' <= c <= 'z' }

  predicate IsRecordIdChar(c: char) { IsLetter(c) || IsDigit(c) || c == '_' || c == '-' }

  predicate IsHexChar(c: char) { IsDigit(c) || 'a' <= c <= 'f' || 'A' <= c <= 'F' }

  predicate IsCodeChar(c: char) { 'a' <= c <= 'z' || IsDigit(c) || c == '.' || c == '_' || c == '-' }

  predicate MatchesRecordId(s: string) {
    8 <= |s| <= 64 && forall i | 0 <= i < |s| :: IsRecordIdChar(s[i])
  }

  predicate MatchesUuid(s: string) {
    |s| == 36 && forall i | 0 <= i < 36 ::
      if i == 8 || i == 13 || i == 18 || i == 23 then s[i] == '-' else IsHexChar(s[i])
  }

  predicate AllHex(s: string) { forall i | 0 <= i < |s| :: IsHexChar(s[i]) }

  /** A UUID is five groups of hexadecimal digits with hyphens between them. */
  lemma UuidIsFiveGroups(s: string)
    ensures MatchesUuid(s) <==>
      && |s| == 36 && s[8] == s[13] == s[18] == s[23] == '-'
      && AllHex(s[..8]) && AllHex(s[9..13]) && AllHex(s[14..18]) && AllHex(s[19..23]) && AllHex(s[24..])
  {
    if |s| == 36 && AllHex(s[..8]) && AllHex(s[9..13]) && AllHex(s[14..18]) && AllHex(s[19..23]) && AllHex(s[24..]) {
      forall i | 0 <= i < 36 && i != 8 && i != 13 && i != 18 && i != 23 ensures IsHexChar(s[i]) {
        assert i < 8 ==> s[i] == s[..8][i];
        assert 8 < i < 13 ==> s[i] == s[9..13][i - 9];
        assert 13 < i < 18 ==> s[i] == s[14..18][i - 14];
        assert 18 < i < 23 ==> s[i] == s[19..23][i - 19];
        assert 23 < i ==> s[i] == s[24..][i - 24];
      }
    }
  }

  const LETTERS := "ABCDEFGHIJKLMNOPQRSTUVWXYZ" + "abcdefghijklmnopqrstuvwxyz"

  /** The characters of the patterns, one by one. */
  lemma PatternCharacters(c: char)
    ensures IsDigit(c) <==> c in "0123456789"
    ensures IsLetter(c) <==> c in LETTERS
    ensures IsRecordIdChar(c) <==> c in LETTERS || c in "0123456789_-"
    ensures IsHexChar(c) <==> c in "0123456789abcdefABCDEF"
    ensures IsCodeChar(c) <==> c in "abcdefghijklmnopqrstuvwxyz" || c in "0123456789._-"
  {
  }

  predicate ValidRecordId(id: string) {
    var id := TrimSpace(id);
    MatchesUuid(id) || MatchesRecordId(id)
  }

  predicate IsIdText(s: string) {
    8 <= |s| <= 64 && forall c | c in s :: c in LETTERS || c in "0123456789_-"
  }

  /** An ID is valid if, but for white space around it, it has 8 to 64 letters, digits, hyphens or underscores: every
      UUID has. */
  lemma ValidIdMeaning(id: string)
    ensures ValidRecordId(id) <==> IsIdText(TrimSpace(id))
  {
    var t := TrimSpace(id);
    forall c ensures IsRecordIdChar(c) <==> c in LETTERS || c in "0123456789_-" {
      PatternCharacters(c);
    }
    assert MatchesRecordId(t) <==> IsIdText(t);
    if MatchesUuid(t) {
      assert forall i | 0 <= i < 36 :: IsRecordIdChar(t[i]);
    }
  }

  lemma ValidCodeMeaning(code: string)
    ensures ValidPermissionCode(code) <==>
      3 <= |code| <= 80 && forall c | c in code :: c in "abcdefghijklmnopqrstuvwxyz" || c in "0123456789._-"
  {
    forall c ensures IsCodeChar(c) <==> c in "abcdefghijklmnopqrstuvwxyz" || c in "0123456789._-" {
      PatternCharacters(c);
    }
  }

  /** The shape of a generated account ID: twelve letters or digits. */
  predicate IsShortId(id: string) {
    |id| == 12 && forall i | 0 <= i < 12 :: IsLetter(id[i]) || IsDigit(id[i])
  }

  /** The shape of a session token: 32 hexadecimal digits. */
  predicate IsToken(token: string) {
    |token| == 32 && forall i | 0 <= i < 32 :: IsHexChar(token[i])
  }

  predicate ValidAccount(account: string) { 4 <= ByteLen(account) <= 32 }

  predicate ValidPassword(password: string) { 6 <= ByteLen(password) <= 32 }

  predicate ValidPermissionCode(code: string) {
    3 <= |code| <= 80 && forall i | 0 <= i < |code| :: IsCodeChar(code[i])
  }

  /** The number that decimal digits spell. */
  function DecimalValue(s: string): nat {
    if s == "" then 0 else
    10 * DecimalValue(s[..|s| - 1]) + (if IsDigit(s[|s| - 1]) then s[|s| - 1] as nat - '0' as nat else 0)
  }

  /** strconv.Itoa of a natural number. */
  function Itoa(n: nat): (s: string)
    ensures s != "" && forall i | 0 <= i < |s| :: IsDigit(s[i])
  {
    if n < 10 then ['0' + n as char] else Itoa(n / 10) + ['0' + (n % 10) as char]
  }

  lemma {:induction false} ItoaIsDecimal(n: nat)
    ensures DecimalValue(Itoa(n)) == n
  {
    var s := Itoa(n);
    if n >= 10 {
      ItoaIsDecimal(n / 10);
      assert s[..|s| - 1] == Itoa(n / 10);
    } else {
      assert s[..0] == "";
    }
  }

  // ---------- order ----------

  /** Go's < on strings: the first difference decides, and a proper prefix is smaller. */
  predicate Less(a: string, b: string) {
    b != [] && (a == [] || a[0] < b[0] || (a[0] == b[0] && Less(a[1..], b[1..])))
  }

  predicate DiffersAt(a: string, b: string, k: nat) {
    k < |a| && k < |b| && a[..k] == b[..k] && a[k] < b[k]
  }

  lemma DiffersNext(a: string, b: string, k: nat)
    requires a != "" && b != "" && a[0] == b[0]
    ensures DiffersAt(a, b, k + 1) <==> DiffersAt(a[1..], b[1..], k)
  {
    if k < |a[1..]| && k < |b[1..]| {
      assert a[..k + 1] == [a[0]] + a[1..][..k] && b[..k + 1] == [b[0]] + b[1..][..k];
      assert a[1..][..k] == a[..k + 1][1..] && b[1..][..k] == b[..k + 1][1..];
    }
  }

  /** The first difference decides, and a text comes after those it continues. */
  lemma {:induction false} LessMeaning(a: string, b: string)
    ensures Less(a, b) <==> (a <= b && a != b) || exists k: nat :: DiffersAt(a, b, k)
  {
    if a != "" && b != "" && a[0] == b[0] {
      LessMeaning(a[1..], b[1..]);
      assert a <= b <==> a[1..] <= b[1..] by { assert a == [a[0]] + a[1..] && b == [b[0]] + b[1..]; }
      if Less(a, b) && !(a <= b && a != b) {
        var k: nat :| DiffersAt(a[1..], b[1..], k);
        DiffersNext(a, b, k);
      }
      if k: nat :| DiffersAt(a, b, k) {
        DiffersNext(a, b, k - 1);
      }
    } else if a != "" && b != "" {
      FirstDiffers(a, b);
    }
  }

  lemma FirstDiffers(a: string, b: string)
    requires a != "" && b != "" && a[0] != b[0]
    ensures a[0] < b[0] <==> exists k: nat :: DiffersAt(a, b, k)
  {
    if a[0] < b[0] { assert DiffersAt(a, b, 0); }
    if k: nat :| DiffersAt(a, b, k) && k > 0 {
      assert a[..k][0] == b[..k][0];
    }
  }

  lemma LessIrreflexive(a: string)
    ensures !Less(a, a)
  {
  }

  lemma LessTransitive(a: string, b: string, c: string)
    requires Less(a, b) && Less(b, c)
    ensures Less(a, c)
  {
  }

  lemma LessTotal(a: string, b: string)
    ensures a == b || Less(a, b) || Less(b, a)
  {
    if a != [] && b != [] && a[0] == b[0] {
      LessTotal(a[1..], b[1..]);
      assert a == [a[0]] + a[1..] && b == [b[0]] + b[1..];
    }
  }

  /** Texts that start with parts of equal length are compared part by part. */
  lemma {:induction false} LessByParts(a: string, a': string, b: string, b': string)
    requires |a| == |b|
    ensures Less(a + a', b + b') <==> Less(a, b) || (a == b && Less(a', b'))
  {
    if a == [] {
      assert a + a' == a' && b + b' == b';
    } else {
      LessByParts(a[1..], a', b[1..], b');
      assert (a + a')[1..] == a[1..] + a' && (b + b')[1..] == b[1..] + b';
      assert a == [a[0]] + a[1..] && b == [b[0]] + b[1..];
    }
  }

  predicate StrictlySorted(codes: seq<string>) {
    forall i, j | 0 <= i < j < |codes| :: Less(codes[i], codes[j])
  }

  function Insert(codes: seq<string>, code: string): seq<string> {
    if codes == [] || Less(code, codes[0]) then [code] + codes
    else [codes[0]] + Insert(codes[1..], code)
  }

  lemma {:induction false} InsertSorts(codes: seq<string>, code: string)
    requires StrictlySorted(codes) && code !in codes
    ensures StrictlySorted(Insert(codes, code))
    ensures forall c :: c in Insert(codes, code) <==> c == code || c in codes
  {
    if codes == [] {
    } else if Less(code, codes[0]) {
      forall j | 0 < j < |codes| ensures Less(code, codes[j]) {
        LessTransitive(code, codes[0], codes[j]);
      }
    } else {
      LessTotal(code, codes[0]);
      var rest := codes[1..];
      assert codes == [codes[0]] + rest;
      InsertSorts(rest, code);
      var ins := Insert(rest, code);
      forall j | 0 <= j < |ins| ensures Less(codes[0], ins[j]) {
        assert ins[j] in ins;
      }
    }
  }

  /** A strictly sorted list is determined by its elements. */
  lemma {:induction false} SortedIsUnique(a: seq<string>, b: seq<string>)
    requires StrictlySorted(a) && StrictlySorted(b)
    requires forall c :: c in a <==> c in b
    ensures a == b
  {
    if a == [] {
      assert forall j | 0 <= j < |b| :: b[j] in b;
    } else {
      assert a[0] in b;
      assert b[0] in a;
      var i :| 0 <= i < |b| && b[i] == a[0];
      var j :| 0 <= j < |a| && a[j] == b[0];
      if i > 0 && j > 0 {
        LessTransitive(a[0], b[0], a[0]);
      }
      LessIrreflexive(a[0]);
      assert a[0] == b[0];
      assert a == [a[0]] + a[1..] && b == [b[0]] + b[1..];
      forall c | c in a[1..] ensures c in b[1..] { LessIrreflexive(c); assert c in a; }
      forall c | c in b[1..] ensures c in a[1..] { LessIrreflexive(c); assert c in b; }
      SortedIsUnique(a[1..], b[1..]);
    }
  }
}
