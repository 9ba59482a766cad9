/** Filling in the texts of one test case: path, body, headers and expectations share one cache, so they agree on one
    value for every placeholder. */
module TemplateRun {
  import opened Text
  import opened Template

  type Cache = map<string, string>

  datatype Filled = Filled(text: string, cache: Cache, drawn: nat)

  /** One placeholder is looked up, or resolved and remembered. */
  function Recall(source: Source, name: string, arg: string, cache: Cache, drawn: nat): (found: (Cache, nat))
    ensures Key(name, arg) in found.0
  {
    var key := Key(name, arg);
    if key in cache then (cache, drawn) else (cache[key := Resolve(source, name, arg, drawn)], drawn + 1)
  }

  /** applyTemplateVars over the parts of a text, from left to right. */
  function Fill(source: Source, tokens: seq<Token>, cache: Cache, drawn: nat): Filled {
    if tokens == [] then Filled("", cache, drawn)
    else match tokens[0]
      case Lit(c) => Prepend([c], Fill(source, tokens[1..], cache, drawn))
      case Hole(name, arg) =>
        var (later, next) := Recall(source, name, arg, cache, drawn);
        Prepend(later[Key(name, arg)], Fill(source, tokens[1..], later, next))
  }

  function Prepend(text: string, f: Filled): Filled { f.(text := text + f.text) }

  /** Substitution under a fixed assignment of values to placeholders. */
  function Subst(tokens: seq<Token>, values: Cache): string {
    if tokens == [] then ""
    else
      (match tokens[0]
       case Lit(c) => [c]
       case Hole(name, arg) => if Key(name, arg) in values then values[Key(name, arg)] else "")
      + Subst(tokens[1..], values)
  }

  /** The texts of a test case in the order of the calls. */
  function FillAll(source: Source, texts: seq<string>, cache: Cache, drawn: nat): (seq<string>, Cache)
  {
    if texts == [] then ([], cache)
    else
      var f := Fill(source, Tokens(texts[0]), cache, drawn);
      var (rest, end) := FillAll(source, texts[1..], f.cache, f.drawn);
      ([f.text] + rest, end)
  }

  ghost predicate Extends(cache: Cache, later: Cache) {
    forall key | key in cache :: key in later && later[key] == cache[key]
  }

  ghost predicate Covers(values: Cache, tokens: seq<Token>) {
    forall t | t in tokens && t.Hole? :: Key(t.name, t.arg) in values
  }

  lemma {:induction false} FillGrows(source: Source, tokens: seq<Token>, cache: Cache, drawn: nat)
    ensures Extends(cache, Fill(source, tokens, cache, drawn).cache)
    ensures Covers(Fill(source, tokens, cache, drawn).cache, tokens)
  {
    if tokens != [] {
      var t := tokens[0];
      var key := if t.Hole? then Key(t.name, t.arg) else "";
      if t.Lit? || key in cache {
        FillGrows(source, tokens[1..], cache, drawn);
      } else {
        FillGrows(source, tokens[1..], cache[key := Resolve(source, t.name, t.arg, drawn)], drawn + 1);
      }
      assert forall u | u in tokens :: u == t || u in tokens[1..];
    }
  }

  /** The text produced is the substitution under any later cache. */
  lemma {:induction false} FillIsSubst(source: Source, tokens: seq<Token>, cache: Cache, drawn: nat, values: Cache)
    requires Extends(Fill(source, tokens, cache, drawn).cache, values)
    ensures Fill(source, tokens, cache, drawn).text == Subst(tokens, values)
  {
    if tokens != [] {
      FillGrows(source, tokens, cache, drawn);
      var rest := tokens[1..];
      match tokens[0] {
        case Lit(c) => FillIsSubst(source, rest, cache, drawn, values);
        case Hole(name, arg) =>
          var key := Key(name, arg);
          if key in cache {
            FillIsSubst(source, rest, cache, drawn, values);
          } else {
            var value := Resolve(source, name, arg, drawn);
            FillGrows(source, rest, cache[key := value], drawn + 1);
            FillIsSubst(source, rest, cache[key := value], drawn + 1, values);
          }
      }
    }
  }

  lemma {:induction false} FillAllGrows(source: Source, texts: seq<string>, cache: Cache, drawn: nat)
    ensures |FillAll(source, texts, cache, drawn).0| == |texts|
    ensures Extends(cache, FillAll(source, texts, cache, drawn).1)
  {
    if texts != [] {
      var f := Fill(source, Tokens(texts[0]), cache, drawn);
      FillGrows(source, Tokens(texts[0]), cache, drawn);
      FillAllGrows(source, texts[1..], f.cache, f.drawn);
    }
  }

  /** Every text of a test case, however early it was filled in, is its substitution under the one final assignment,
      which has a value for each of its placeholders. */
  lemma {:induction false} OneAssignment(source: Source, texts: seq<string>, cache: Cache, drawn: nat, i: nat)
    requires i < |texts|
    ensures var (outputs, values) := FillAll(source, texts, cache, drawn);
      |outputs| == |texts| && outputs[i] == Subst(Tokens(texts[i]), values) && Covers(values, Tokens(texts[i]))
  {
    var tokens := Tokens(texts[0]);
    var f := Fill(source, tokens, cache, drawn);
    FillAllGrows(source, texts, cache, drawn);
    FillAllGrows(source, texts[1..], f.cache, f.drawn);
    if i == 0 {
      FillGrows(source, tokens, cache, drawn);
      FillIsSubst(source, tokens, cache, drawn, FillAll(source, texts, cache, drawn).1);
    } else {
      OneAssignment(source, texts[1..], f.cache, f.drawn, i - 1);
    }
  }

  /** Each output is its text with the placeholders replaced by the values of one assignment. */
  ghost predicate IsFilledWith(outputs: seq<string>, texts: seq<string>, values: Cache) {
    && |outputs| == |texts|
    && forall i | 0 <= i < |texts| :: outputs[i] == Subst(Tokens(texts[i]), values)
  }

  lemma AllAssigned(source: Source, texts: seq<string>, cache: Cache, drawn: nat)
    ensures IsFilledWith(FillAll(source, texts, cache, drawn).0, texts, FillAll(source, texts, cache, drawn).1)
  {
    FillAllGrows(source, texts, cache, drawn);
    forall i | 0 <= i < |texts|
      ensures FillAll(source, texts, cache, drawn).0[i]
           == Subst(Tokens(texts[i]), FillAll(source, texts, cache, drawn).1)
    {
      OneAssignment(source, texts, cache, drawn, i);
    }
  }

  // ---------- which values ----------

  /** Every cached value is what its placeholder resolves to at some draw. */
  ghost predicate Resolved(source: Source, cache: Cache) {
    forall key | key in cache :: ResolvedKey(source, key, cache[key])
  }

  ghost predicate ResolvedKey(source: Source, key: string, value: string) {
    exists name, arg, k: nat :: IsName(name) && key == Key(name, arg) && value == Resolve(source, name, arg, k)
  }

  lemma {:induction false} FillResolves(source: Source, tokens: seq<Token>, cache: Cache, drawn: nat)
    requires Resolved(source, cache) && IsSplitting(tokens)
    ensures Resolved(source, Fill(source, tokens, cache, drawn).cache)
  {
    if tokens != [] {
      match tokens[0] {
        case Lit(_) => FillResolves(source, tokens[1..], cache, drawn);
        case Hole(name, arg) =>
          var key := Key(name, arg);
          if key in cache {
            FillResolves(source, tokens[1..], cache, drawn);
          } else {
            var value := Resolve(source, name, arg, drawn);
            assert ResolvedKey(source, key, value);
            FillResolves(source, tokens[1..], cache[key := value], drawn + 1);
          }
      }
    }
  }

  lemma {:induction false} FillAllResolves(source: Source, texts: seq<string>, cache: Cache, drawn: nat)
    requires Resolved(source, cache)
    ensures Resolved(source, FillAll(source, texts, cache, drawn).1)
  {
    if texts != [] {
      var f := Fill(source, Tokens(texts[0]), cache, drawn);
      SplitThenPrint(texts[0]);
      FillResolves(source, Tokens(texts[0]), cache, drawn);
      FillAllResolves(source, texts[1..], f.cache, f.drawn);
    }
  }

  predicate IsKnown(name: string) {
    name in {"internal_token", "range_tag", "admin_session_token", "operator_session_token", "role_state_session_token",
             "ts", "ts_ms", "uuid", "rand"}
  }

  predicate AllDigits(s: string) { s != "" && forall c | c in s :: IsDigit(c) }

  /** What a placeholder may stand for. */
  ghost predicate IsValueOf(source: Source, name: string, arg: string, value: string) {
    && (!IsKnown(name) ==> value == Literal(name, arg))
    && (name == "ts" ==> value == Itoa(source.now / 1_000_000_000))
    && (name == "ts_ms" ==> value == Itoa(source.now / 1_000_000))
    && (name == "uuid" ==> value == source.uuid)
    && (name == "range_tag" ==> value == "test_req_selftest_")
    && (name == "internal_token" ==> value == source.internalToken)
    && (name == "admin_session_token" ==> IsTokenOf(source, "10000000-0000-0000-0000-000000000001", value))
    && (name == "operator_session_token" ==> IsTokenOf(source, "10000000-0000-0000-0000-000000000002", value))
    && (name == "role_state_session_token" ==> IsTokenOf(source, "10000000-0000-0000-0000-000000000004", value))
    && (name == "rand" ==>
          && IsDrawn(source, value)
          && |value| == if AllDigits(arg) && 1 <= DecimalValue(arg) <= 32 then DecimalValue(arg) else 6)
  }

  ghost predicate IsTokenOf(source: Source, accountId: string, value: string) {
    exists k: nat :: value == source.session(k, accountId)
  }

  /** The start of a random hexadecimal string. */
  ghost predicate IsDrawn(source: Source, value: string) {
    && (exists k: nat :: value <= source.hex(k))
    && forall i | 0 <= i < |value| :: IsHexChar(value[i])
  }

  /** In the assignment of a test case an unknown placeholder stands for itself, ${rand:n} for as many hexadecimal
      digits as it asks for, and each session token is one issued for its own account. */
  lemma AssignedValues(source: Source, texts: seq<string>, name: string, arg: string)
    requires IsSource(source) && IsName(name)
    requires Key(name, arg) in FillAll(source, texts, map[], 0).1
    ensures IsValueOf(source, name, arg, FillAll(source, texts, map[], 0).1[Key(name, arg)])
  {
    FillAllResolves(source, texts, map[], 0);
    var value := FillAll(source, texts, map[], 0).1[Key(name, arg)];
    assert ResolvedKey(source, Key(name, arg), value);
    var n, a, k: nat :| IsName(n) && Key(name, arg) == Key(n, a) && value == Resolve(source, n, a, k);
    KeyIsInjective(name, arg, n, a);
    ResolvedIsValue(source, name, arg, k);
  }

  lemma ResolvedIsValue(source: Source, name: string, arg: string, k: nat)
    requires IsSource(source)
    ensures IsValueOf(source, name, arg, Resolve(source, name, arg, k))
  {
    PrintIsLiteral(name, arg);
    var value := Resolve(source, name, arg, k);
    if name == "rand" {
      assert value <= source.hex(k);
    }
  }

  /** What substitution does to a text: it leaves a character at which no placeholder starts, and puts the value for a
      placeholder. */
  lemma SubstSteps(values: Cache, c: char, name: string, arg: string, rest: string)
    ensures Subst(Tokens(""), values) == ""
    ensures (forall n, a | IsName(n) && IsArg(a) :: !(Literal(n, a) <= [c] + rest)) ==>
      Subst(Tokens([c] + rest), values) == [c] + Subst(Tokens(rest), values)
    ensures IsName(name) && IsArg(arg) && Key(name, arg) in values ==>
      Subst(Tokens(Literal(name, arg) + rest), values) == values[Key(name, arg)] + Subst(Tokens(rest), values)
  {
    var here := MatchHere([c] + rest);
    if here.Match? {
      MatchMeaning([c] + rest, here.name, here.arg);
      PrintIsLiteral(here.name, here.arg);
    } else {
      SplitLiteral(c, rest);
    }
    PrintIsLiteral(name, arg);
    if IsName(name) && IsArg(arg) { SplitHole(name, arg, rest); }
  }

  /** A text that is one placeholder becomes a value of it. */
  lemma PlaceholderBecomesValue(source: Source, texts: seq<string>, i: nat, name: string, arg: string)
    requires IsSource(source) && IsName(name) && IsArg(arg) && i < |texts| && texts[i] == Literal(name, arg)
    ensures |FillAll(source, texts, map[], 0).0| == |texts|
    ensures IsValueOf(source, name, arg, FillAll(source, texts, map[], 0).0[i])
  {
    var (outputs, values) := FillAll(source, texts, map[], 0);
    OneAssignment(source, texts, map[], 0, i);
    PrintIsLiteral(name, arg);
    SplitHole(name, arg, "");
    assert Print(name, arg) + "" == texts[i];
    assert Hole(name, arg) in Tokens(texts[i]);
    SubstSteps(values, 'x', name, arg, "");
    assert values[Key(name, arg)] + "" == values[Key(name, arg)];
    AssignedValues(source, texts, name, arg);
  }

  /** So ${rand:n} becomes n hexadecimal digits, for every n from 1 to 32. */
  lemma RandomDigits(source: Source, texts: seq<string>, i: nat, n: nat)
    requires IsSource(source) && 1 <= n <= 32 && i < |texts| && texts[i] == "${rand:" + Itoa(n) + "}"
    ensures |FillAll(source, texts, map[], 0).0| == |texts|
    ensures |FillAll(source, texts, map[], 0).0[i]| == n
  {
    ItoaIsDecimal(n);
    assert "${rand:" + Itoa(n) + "}" == "${" + "rand" + (":" + Itoa(n)) + "}";
    assert IsName("rand");
    PlaceholderBecomesValue(source, texts, i, "rand", Itoa(n));
  }

  /** The time in milliseconds is the time in seconds with three more digits. */
  lemma MillisecondsContinueSeconds(source: Source)
    requires source.now >= 1_000_000_000
    ensures |Itoa(source.now / 1_000_000)| == |Itoa(source.now / 1_000_000_000)| + 3
    ensures Itoa(source.now / 1_000_000_000) <= Itoa(source.now / 1_000_000)
  {
    var n := source.now / 1_000_000;
    assert n / 10 / 10 / 10 == source.now / 1_000_000_000;
    assert Itoa(n) == Itoa(n / 10) + ['0' + (n % 10) as char];
    assert Itoa(n / 10) == Itoa(n / 100) + ['0' + (n / 10 % 10) as char];
  }

  // ---------- the runner's variables ----------

  /** What a pass over a text ends with when it has put out and still has rest before it. */
  ghost function Remaining(source: Source, out: string, rest: string, cache: Cache, drawn: nat): Filled {
    Prepend(out, Fill(source, Tokens(rest), cache, drawn))
  }

  lemma FillLiteral(source: Source, rest: string, cache: Cache, drawn: nat, out: string)
    requires rest != "" && MatchHere(rest).NoMatch?
    ensures Remaining(source, out, rest, cache, drawn) == Remaining(source, out + [rest[0]], rest[1..], cache, drawn)
  {
    var tail := Tokens(rest[1..]);
    assert Tokens(rest) == [Lit(rest[0])] + tail && Tokens(rest)[1..] == tail;
    PrependTwice(out, [rest[0]], Fill(source, tail, cache, drawn));
  }

  lemma FillPlaceholder(source: Source, rest: string, cache: Cache, drawn: nat, out: string)
    requires MatchHere(rest).Match?
    ensures var Match(name, arg) := MatchHere(rest);
      var (later, next) := Recall(source, name, arg, cache, drawn);
      Remaining(source, out, rest, cache, drawn) ==
          Remaining(source, out + later[Key(name, arg)], AfterMatch(rest), later, next)
  {
    TokensOfMatch(rest);
    var Match(name, arg) := MatchHere(rest);
    var (later, next) := Recall(source, name, arg, cache, drawn);
    PrependTwice(out, later[Key(name, arg)], Fill(source, Tokens(AfterMatch(rest)), later, next));
  }

  lemma PrependTwice(a: string, b: string, f: Filled)
    ensures Prepend(a, Prepend(b, f)) == Prepend(a + b, f)
  {
    assert a + (b + f.text) == (a + b) + f.text;
  }

  class TemplateVars {
    const source: Source
    var cache: Cache
    var drawn: nat

    constructor (source: Source)
      ensures this.source == source && cache == map[] && drawn == 0
    {
      this.source := source;
      cache, drawn := map[], 0;
    }

    /** The replacement of one match. */
    method Value(name: string, arg: string) returns (value: string)
      modifies this`cache, this`drawn
      ensures (cache, drawn) == Recall(source, name, arg, old(cache), old(drawn))
      ensures value == cache[Key(name, arg)]
    {
      var key := Key(name, arg);
      if key in cache {
        return cache[key];
      }
      value := Resolve(source, name, arg, drawn);
      cache, drawn := cache[key := value], drawn + 1;
    }

    /** Replaces the placeholders of s, remembering every new value. */
    method ApplyTemplateVars(s: string) returns (out: string)
      modifies this`cache, this`drawn
      ensures Filled(out, cache, drawn) == Fill(source, Tokens(s), old(cache), old(drawn))
    {
      out := "";
      var rest := s;
      ghost var whole := Remaining(source, out, rest, cache, drawn);
      while rest != ""
        invariant whole == Remaining(source, out, rest, cache, drawn)
        decreases |rest|
      {
        var here := MatchHere(rest);
        if here.NoMatch? {
          FillLiteral(source, rest, cache, drawn, out);
          out, rest := out + [rest[0]], rest[1..];
        } else {
          FillPlaceholder(source, rest, cache, drawn, out);
          var value := Value(here.name, here.arg);
          out, rest := out + value, AfterMatch(rest);
        }
      }
      assert out + "" == out;
    }

    /** The calls made for one test case. */
    method ApplyAll(texts: seq<string>) returns (outputs: seq<string>)
      modifies this`cache, this`drawn
      ensures outputs == FillAll(source, texts, old(cache), old(drawn)).0
      ensures cache == FillAll(source, texts, old(cache), old(drawn)).1
      ensures IsFilledWith(outputs, texts, cache)
    {
      outputs := [];
      ghost var all := FillAll(source, texts, cache, drawn);
      assert texts[0..] == texts;
      for i := 0 to |texts|
        invariant all.0 == outputs + FillAll(source, texts[i..], cache, drawn).0
        invariant all.1 == FillAll(source, texts[i..], cache, drawn).1
      {
        assert texts[i..][1..] == texts[i + 1..];
        var out := ApplyTemplateVars(texts[i]);
        outputs := outputs + [out];
        assert all.0 == outputs + FillAll(source, texts[i + 1..], cache, drawn).0;
      }
      assert texts[|texts|..] == [];
      assert outputs == all.0 && cache == all.1;
      AllAssigned(source, texts, old(cache), old(drawn));
    }
  }
}
