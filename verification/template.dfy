/** The template engine of the self-test runner: ${name} and ${name:arg} are replaced, each distinct placeholder once
    and for all within a test case. */
module Template {
  import opened Text

  // ---------- the placeholder grammar ----------

  predicate IsNameChar(c: char) { IsLetter(c) || c == '_' }

  predicate IsArgChar(c: char) { IsLetter(c) || IsDigit(c) || c == '_' || c == '-' }

  /** The characters of names and arguments, one by one. */
  lemma PlaceholderCharacters(c: char)
    ensures IsNameChar(c) <==> c in LETTERS || c == '_'
    ensures IsArgChar(c) <==> c in LETTERS || c in "0123456789_-"
  {
    PatternCharacters(c);
  }

  predicate IsName(s: string) { s != "" && forall i | 0 <= i < |s| :: IsNameChar(s[i]) }

  /** An argument, or none. */
  predicate IsArg(s: string) { forall i | 0 <= i < |s| :: IsArgChar(s[i]) }

  /** What follows the name of a placeholder; an empty argument stands for none. */
  function Tail(arg: string): string {
    if arg == "" then "}" else [':'] + arg + ['}']
  }

  /** A placeholder in source form. */
  function Print(name: string, arg: string): string {
    ['$', '{'] + (name + Tail(arg))
  }

  function Literal(name: string, arg: string): string {
    "${" + name + (if arg == "" then "" else ":" + arg) + "}"
  }

  lemma PrintIsLiteral(name: string, arg: string)
    ensures Print(name, arg) == Literal(name, arg)
  {
    if arg == "" {
      assert name + "" == name;
    } else {
      assert ['$', '{'] + (name + ([':'] + arg + ['}'])) == "${" + name + (":" + arg) + "}";
    }
  }

  /** Length of the longest prefix of characters that satisfy p. */
  function Span(p: char -> bool, s: string): (n: nat)
    ensures n <= |s| && (forall i | 0 <= i < n :: p(s[i])) && (n < |s| ==> !p(s[n]))
  {
    if s != "" && p(s[0]) then 1 + Span(p, s[1..]) else 0
  }

  lemma {:induction false} SpanIs(p: char -> bool, s: string, n: nat)
    requires n <= |s| && (forall i | 0 <= i < n :: p(s[i])) && (n < |s| ==> !p(s[n]))
    ensures Span(p, s) == n
    decreases n
  {
    if n > 0 {
      SpanIs(p, s[1..], n - 1);
    }
  }

  /** A prefix made of two parts is the first part followed by the second. */
  lemma PrefixParts(a: string, b: string, t: string)
    ensures a + b <= t <==> a <= t && b <= t[|a|..]
  {
    var n, k := |a|, |b|;
    if n + k <= |t| {
      assert t[..n + k] == t[..n] + t[n..n + k];
      assert t[n..][..k] == t[n..n + k];
      assert (a + b)[..n] == a && (a + b)[n..] == b;
      assert t[..n + k][..n] == t[..n] && t[..n + k][n..] == t[n..n + k];
    }
  }

  datatype Match = NoMatch | Match(name: string, arg: string)

  /** The optional argument and the closing brace. */
  function MatchTail(r: string): Option<string> {
    if r == "" then None
    else if r[0] == '}' then Some("")
    else if r[0] != ':' then None
    else
      var a := Span(IsArgChar, r[1..]);
      if a == 0 || 1 + a == |r| || r[1 + a] != '}' then None else Some(r[1..1 + a])
  }

  function MatchBody(t: string): Match {
    var n := Span(IsNameChar, t);
    if n == 0 then NoMatch
    else match MatchTail(t[n..])
      case None => NoMatch
      case Some(arg) => Match(t[..n], arg)
  }

  /** The regular expression \$\{([a-zA-Z_]+)(?::([a-zA-Z0-9_-]+))?\} tried at the start of s. */
  function MatchHere(s: string): Match {
    if |s| >= 2 && s[0] == '$' && s[1] == '{' then MatchBody(s[2..]) else NoMatch
  }

  lemma TailParts(r: string, arg: string)
    requires arg != "" && r != ""
    ensures var t := r[1..];
      var a := Span(IsArgChar, t);
      MatchTail(r) == Some(arg) <==> r[0] == ':' && a != 0 && a < |t| && t[a] == '}' && t[..a] == arg
  {
    var a := Span(IsArgChar, r[1..]);
    assert r[1..1 + a] == r[1..][..a];
  }

  lemma TailMeaning(r: string, arg: string)
    ensures MatchTail(r) == Some(arg) <==> IsArg(arg) && Tail(arg) <= r
  {
    if arg != "" && r != "" {
      TailParts(r, arg);
      ArgMeaning(r[1..], arg);
      PrefixParts([':'], arg + ['}'], r);
      PrefixParts(arg, ['}'], r[1..]);
      assert Tail(arg) == [':'] + (arg + ['}']);
      assert [':'] <= r <==> r[0] == ':';
    }
  }

  /** The argument is the longest run of argument characters, and a brace follows it. */
  lemma ArgMeaning(t: string, arg: string)
    requires arg != ""
    ensures var a := Span(IsArgChar, t);
      (a != 0 && a < |t| && t[a] == '}' && t[..a] == arg) <==> IsArg(arg) && arg <= t && ['}'] <= t[|arg|..]
  {
    if IsArg(arg) && arg <= t && ['}'] <= t[|arg|..] {
      ArgSpan(t, arg);
    }
  }

  lemma ArgSpan(t: string, arg: string)
    requires arg != "" && IsArg(arg) && arg <= t && ['}'] <= t[|arg|..]
    ensures Span(IsArgChar, t) == |arg| < |t| && t[|arg|] == '}' && t[..|arg|] == arg
  {
    assert forall i | 0 <= i < |arg| :: t[i] == arg[i];
    assert t[|arg|] == t[|arg|..][0];
    SpanIs(IsArgChar, t, |arg|);
  }

  lemma BodyParts(t: string, name: string, arg: string)
    ensures var n := Span(IsNameChar, t);
      MatchBody(t) == Match(name, arg) <==> n != 0 && t[..n] == name && MatchTail(t[n..]) == Some(arg)
  {
  }

  lemma BodyMeaning(t: string, name: string, arg: string)
    ensures MatchBody(t) == Match(name, arg) <==> IsName(name) && IsArg(arg) && name + Tail(arg) <= t
  {
    BodyParts(t, name, arg);
    PrefixParts(name, Tail(arg), t);
    TailMeaning(t[Span(IsNameChar, t)..], arg);
    if IsName(name) && IsArg(arg) && name <= t && Tail(arg) <= t[|name|..] {
      NameSpan(name, arg, t);
    }
  }

  lemma NameSpan(name: string, arg: string, t: string)
    requires IsName(name) && name <= t && Tail(arg) <= t[|name|..]
    ensures Span(IsNameChar, t) == |name|
  {
    assert forall i | 0 <= i < |name| :: t[i] == name[i];
    assert t[|name|] == t[|name|..][0] == Tail(arg)[0];
    SpanIs(IsNameChar, t, |name|);
  }

  /** A match at the start of s is the placeholder that s starts with; there is at most one. */
  lemma MatchMeaning(s: string, name: string, arg: string)
    ensures MatchHere(s) == Match(name, arg) <==> IsName(name) && IsArg(arg) && Print(name, arg) <= s
  {
    var open := ['$', '{'];
    PrefixParts(open, name + Tail(arg), s);
    assert open <= s <==> |s| >= 2 && s[0] == '$' && s[1] == '{';
    if open <= s {
      BodyMeaning(s[2..], name, arg);
    }
  }

  lemma MatchIsPrefix(s: string)
    ensures match MatchHere(s)
            case NoMatch => true
            case Match(name, arg) => IsName(name) && IsArg(arg) && Print(name, arg) <= s
  {
    if MatchHere(s).Match? {
      MatchMeaning(s, MatchHere(s).name, MatchHere(s).arg);
    }
  }

  // ---------- splitting a text ----------

  datatype Token = Lit(c: char) | Hole(name: string, arg: string)

  function PrintToken(t: Token): string {
    match t
    case Lit(c) => [c]
    case Hole(name, arg) => Print(name, arg)
  }

  function PrintAll(tokens: seq<Token>): string {
    if tokens == [] then "" else PrintToken(tokens[0]) + PrintAll(tokens[1..])
  }

  /** What follows the placeholder that s starts with. */
  function AfterMatch(s: string): (rest: string)
    requires MatchHere(s).Match?
    ensures |rest| < |s|
  {
    MatchIsPrefix(s);
    s[|Print(MatchHere(s).name, MatchHere(s).arg)|..]
  }

  /** The leftmost, non-overlapping matches and the characters between them. */
  function Tokens(s: string): seq<Token> {
    if s == "" then []
    else
      match MatchHere(s)
      case NoMatch => [Lit(s[0])] + Tokens(s[1..])
      case Match(name, arg) => [Hole(name, arg)] + Tokens(AfterMatch(s))
  }

  lemma TokensOfMatch(s: string)
    requires MatchHere(s).Match?
    ensures var tokens := Tokens(s);
      tokens != [] && tokens[0] == Hole(MatchHere(s).name, MatchHere(s).arg) && tokens[1..] == Tokens(AfterMatch(s))
  {
    assert s != "";
  }

  /** A splitting as the regular expression makes it: holes are placeholders, and no placeholder starts at a literal. */
  ghost predicate IsSplitting(tokens: seq<Token>) {
    tokens == [] ||
    (IsSplitting(tokens[1..]) &&
     match tokens[0]
     case Lit(_) => MatchHere(PrintAll(tokens)).NoMatch?
     case Hole(name, arg) => IsName(name) && IsArg(arg))
  }

  /** Printing the parts gives back the text, and they are a splitting. */
  lemma {:induction false} SplitThenPrint(s: string)
    ensures PrintAll(Tokens(s)) == s && IsSplitting(Tokens(s))
  {
    if s != "" {
      var tokens := Tokens(s);
      match MatchHere(s) {
        case NoMatch =>
          SplitThenPrint(s[1..]);
          assert tokens[1..] == Tokens(s[1..]);
          assert s == [s[0]] + s[1..];
        case Match(name, arg) =>
          MatchIsPrefix(s);
          var p := Print(name, arg);
          SplitThenPrint(s[|p|..]);
          assert tokens[1..] == Tokens(s[|p|..]);
          assert s == p + s[|p|..];
      }
    }
  }

  /** The splitting of a text is unique. */
  lemma {:induction false} PrintThenSplit(tokens: seq<Token>)
    requires IsSplitting(tokens)
    ensures Tokens(PrintAll(tokens)) == tokens
  {
    if tokens != [] {
      var rest := tokens[1..];
      PrintThenSplit(rest);
      match tokens[0] {
        case Lit(c) => SplitLiteral(c, PrintAll(rest));
        case Hole(name, arg) => SplitHole(name, arg, PrintAll(rest));
      }
      assert tokens == [tokens[0]] + rest;
    }
  }

  lemma SplitLiteral(c: char, rest: string)
    requires MatchHere([c] + rest).NoMatch?
    ensures Tokens([c] + rest) == [Lit(c)] + Tokens(rest)
  {
    assert ([c] + rest)[1..] == rest;
  }

  lemma SplitHole(name: string, arg: string, rest: string)
    requires IsName(name) && IsArg(arg)
    ensures Tokens(Print(name, arg) + rest) == [Hole(name, arg)] + Tokens(rest)
  {
    var s := Print(name, arg) + rest;
    MatchMeaning(s, name, arg);
    assert s[|Print(name, arg)|..] == rest;
  }

  // ---------- keys and values ----------

  function Key(name: string, arg: string): string {
    if arg == "" then name else name + ":" + arg
  }

  /** A cache key determines its placeholder. */
  lemma KeyIsInjective(name: string, arg: string, name': string, arg': string)
    requires IsName(name) && IsName(name') && Key(name, arg) == Key(name', arg')
    ensures name == name' && arg == arg'
  {
    var key := Key(name, arg);
    NameEnds(name, arg);
    NameEnds(name', arg');
    assert key[..|name|] == name && key[..|name'|] == name';
    if arg != "" {
      assert key[|name| + 1..] == arg;
    }
    if arg' != "" {
      assert key[|name'| + 1..] == arg';
    }
  }

  /** The name is what precedes the first colon of a key, or the whole key. */
  lemma NameEnds(name: string, arg: string)
    requires IsName(name)
    ensures var key := Key(name, arg); Span(c => c != ':', key) == |name|
  {
    var key := Key(name, arg);
    assert forall i | 0 <= i < |name| :: key[i] == name[i];
    SpanIs(c => c != ':', key, |name|);
  }

  /** What a test case is given: the time of its start in nanoseconds since 1970 and its fixed values, and the k-th
      random hexadecimal string and session token. */
  datatype Source = Source(now: nat, uuid: string, internalToken: string,
                           hex: nat -> string, session: (nat, string) -> string)

  ghost predicate IsSource(source: Source) {
    forall k: nat :: |source.hex(k)| == 32 && forall i | 0 <= i < 32 :: IsHexChar(source.hex(k)[i])
  }

  /** The number of digits of ${rand:arg}: a decimal argument from 1 to 32, otherwise 6. */
  function RandLength(arg: string): nat {
    if arg != "" && (forall c | c in arg :: IsDigit(c)) && 1 <= DecimalValue(arg) <= 32 then DecimalValue(arg) else 6
  }

  const ADMIN_ID := "10000000-0000-0000-0000-000000000001"
  const OPERATOR_ID := "10000000-0000-0000-0000-000000000002"
  const ROLE_STATE_ID := "10000000-0000-0000-0000-000000000004"

  /** resolveTemplateName, with k values drawn so far. */
  function Resolve(source: Source, name: string, arg: string, k: nat): string {
    match name
    case "internal_token" => source.internalToken
    case "range_tag" => "test_req_selftest_"
    case "admin_session_token" => source.session(k, ADMIN_ID)
    case "operator_session_token" => source.session(k, OPERATOR_ID)
    case "role_state_session_token" => source.session(k, ROLE_STATE_ID)
    case "ts" => Itoa(source.now / 1_000_000_000)
    case "ts_ms" => Itoa(source.now / 1_000_000)
    case "uuid" => source.uuid
    case "rand" => if RandLength(arg) <= |source.hex(k)| then source.hex(k)[..RandLength(arg)] else source.hex(k)
    case _ => Print(name, arg)
  }
}
