/** Reading and printing the ISUPPORT tokens of a 005: the PREFIX value, and the tokens the status
    shows. */
module Isupport {
  import opened Options
  import opened Text
  import opened Handlers

  const DEFAULT_PREFIX: seq<Prefix> := [Prefix('@', 'o'), Prefix('+', 'v'), Prefix('%', 'h')]

  // ----- PREFIX -----

  function Pairs(modes: string, symbols: string): seq<Prefix>
    requires |modes| == |symbols|
  {
    seq(|modes|, i requires 0 <= i < |modes| => Prefix(symbols[i], modes[i]))
  }

  /** "(ov)@+" is @ for o and + for v; None if it is malformed. */
  function ParsePrefix(value: string): Option<seq<Prefix>> {
    if value == "" || value[0] != '(' then None
    else
      var rest := value[1..];
      var i := IndexOf(rest, ')');
      if i == |rest| then None
      else
        var modes, symbols := rest[..i], rest[i + 1..];
        if modes == "" || |modes| != |symbols| then None else Some(Pairs(modes, symbols))
  }

  function PrefixesFrom(isupport: map<string, string>): seq<Prefix> {
    var parsed := ParsePrefix(if "PREFIX" in isupport then isupport["PREFIX"] else "");
    if parsed.Some? then parsed.value else DEFAULT_PREFIX
  }

  method ReadPrefix(value: string) returns (prefix: Option<seq<Prefix>>)
    ensures prefix == ParsePrefix(value)
  {
    if value == "" || value[0] != '(' {
      return None;
    }
    var rest := value[1..];
    var cut := IndexOf(rest, ')');
    if cut == |rest| {
      return None;
    }
    var modes, symbols := rest[..cut], rest[cut + 1..];
    if modes == "" || |modes| != |symbols| {
      return None;
    }
    var pairs := [];
    for i := 0 to |modes|
      invariant pairs == Pairs(modes, symbols)[..i]
    {
      pairs := pairs + [Prefix(symbols[i], modes[i])];
    }
    assert Pairs(modes, symbols)[..|modes|] == Pairs(modes, symbols);
    prefix := Some(pairs);
  }

  function Modes(prefixes: seq<Prefix>): string {
    seq(|prefixes|, i requires 0 <= i < |prefixes| => prefixes[i].mode)
  }

  function Symbols(prefixes: seq<Prefix>): string {
    seq(|prefixes|, i requires 0 <= i < |prefixes| => prefixes[i].symbol)
  }

  function PrintPrefix(prefixes: seq<Prefix>): string {
    "(" + Modes(prefixes) + ")" + Symbols(prefixes)
  }

  /** A value the parser takes: modes without ")", and as many symbols. */
  ghost predicate WellFormed(value: string, modes: string, symbols: string) {
    value == "(" + modes + ")" + symbols && |modes| == |symbols| > 0 && ')' !in modes
  }

  /** The parser takes exactly the well-formed values. */
  lemma AcceptsExactlyTheWellFormed(value: string)
    ensures ParsePrefix(value).Some? <==> exists modes, symbols :: WellFormed(value, modes, symbols)
  {
    if value != "" && value[0] == '(' {
      var rest := value[1..];
      var i := IndexOf(rest, ')');
      if ParsePrefix(value).Some? {
        assert value == "(" + rest[..i] + ")" + rest[i + 1..];
        assert WellFormed(value, rest[..i], rest[i + 1..]);
      }
      if exists modes, symbols :: WellFormed(value, modes, symbols) {
        var modes, symbols :| WellFormed(value, modes, symbols);
        assert rest == modes + [')'] + symbols;
        IndexAfter(modes, ')', symbols);
        assert rest[..i] == modes && rest[i + 1..] == symbols;
      }
    }
  }

  /** Printing undoes parsing. */
  lemma PrintUndoesParse(value: string)
    requires ParsePrefix(value).Some?
    ensures PrintPrefix(ParsePrefix(value).value) == value
  {
    var rest := value[1..];
    var i := IndexOf(rest, ')');
    var prefixes := ParsePrefix(value).value;
    assert Modes(prefixes) == rest[..i] && Symbols(prefixes) == rest[i + 1..];
    assert value == "(" + rest[..i] + ")" + rest[i + 1..];
  }

  /** And parsing undoes printing, for any prefixes that can be printed. */
  lemma ParseUndoesPrint(prefixes: seq<Prefix>)
    requires prefixes != [] && ')' !in Modes(prefixes)
    ensures ParsePrefix(PrintPrefix(prefixes)) == Some(prefixes)
  {
    var modes, symbols := Modes(prefixes), Symbols(prefixes);
    var rest := PrintPrefix(prefixes)[1..];
    assert rest == modes + [')'] + symbols;
    IndexAfter(modes, ')', symbols);
    assert rest[..|modes|] == modes && rest[|modes| + 1..] == symbols;
    assert Pairs(modes, symbols) == prefixes;
  }

  /** A client uses the prefixes that its server advertises, and the default ones if the server's PREFIX
      is missing or malformed. */
  lemma UsesTheAdvertised(isupport: map<string, string>, prefixes: seq<Prefix>)
    ensures "PREFIX" in isupport && isupport["PREFIX"] == PrintPrefix(prefixes) && prefixes != [] && ')' !in Modes(prefixes)
       ==> PrefixesFrom(isupport) == prefixes
    ensures "PREFIX" !in isupport || !(exists modes, symbols :: WellFormed(isupport["PREFIX"], modes, symbols))
       ==> PrefixesFrom(isupport) == DEFAULT_PREFIX
  {
    if "PREFIX" in isupport {
      AcceptsExactlyTheWellFormed(isupport["PREFIX"]);
      if isupport["PREFIX"] == PrintPrefix(prefixes) && prefixes != [] && ')' !in Modes(prefixes) {
        ParseUndoesPrint(prefixes);
      }
    }
  }

  // ----- tokens -----

  function EscapeChar(c: char): string {
    if c == '\\' then "\\x5C" else if c == ' ' then "\\x20" else if c == '=' then "\\x3D" else [c]
  }

  function Escape(value: string): string {
    if value == "" then "" else EscapeChar(value[0]) + Escape(value[1..])
  }

  /** What irc-go reads after a backslash and an x. */
  function Unhex(high: char, low: char): Option<char> {
    if high == '5' && (low == 'C' || low == 'c') then Some('\\')
    else if high == '2' && low == '0' then Some(' ')
    else if high == '3' && (low == 'D' || low == 'd') then Some('=')
    else if high == '2' && (low == 'C' || low == 'c') then Some(',')
    else None
  }

  function Unescape(s: string): string {
    if s == "" then ""
    else if |s| >= 4 && s[0] == '\\' && s[1] == 'x' && Unhex(s[2], s[3]).Some? then
      [Unhex(s[2], s[3]).value] + Unescape(s[4..])
    else [s[0]] + Unescape(s[1..])
  }

  lemma {:induction false} UnescapeEscape(value: string)
    ensures Unescape(Escape(value)) == value
  {
    if value != "" {
      var c, rest := value[0], Escape(value[1..]);
      UnescapeEscape(value[1..]);
      var s := EscapeChar(c) + rest;
      if |EscapeChar(c)| == 4 {
        assert s[4..] == rest;
      } else {
        assert s[1..] == rest;
      }
    }
  }

  lemma {:induction false} EscapedIsPlain(value: string)
    ensures ' ' !in Escape(value) && '=' !in Escape(value)
  {
    if value != "" {
      EscapedIsPlain(value[1..]);
      assert ' ' !in EscapeChar(value[0]) && '=' !in EscapeChar(value[0]);
    }
  }

  function Token(key: string, value: string): string {
    if value == "" then key else key + "=" + Escape(value)
  }

  /** The key and value that a token gives: cut at the first "=", then decoded. */
  function DecodeToken(token: string): (string, string) {
    var i := IndexOf(token, '=');
    if i == |token| then (token, "") else (token[..i], Unescape(token[i + 1..]))
  }

  lemma DecodesToken(key: string, value: string)
    requires '=' !in key
    ensures DecodeToken(Token(key, value)) == (key, value)
  {
    if value == "" {
      IndexNone(key, '=');
    } else {
      var rest := Escape(value);
      IndexAfter(key, '=', rest);
      var token := key + ['='] + rest;
      assert token == Token(key, value);
      assert token[..|key|] == key && token[|key| + 1..] == rest;
      UnescapeEscape(value);
    }
  }

  /** A token decodes to its key and value exactly when the key holds no "=". */
  lemma DecodesExactly(key: string, value: string)
    ensures DecodeToken(Token(key, value)) == (key, value) <==> '=' !in key
  {
    if '=' !in key {
      DecodesToken(key, value);
    } else {
      var token := Token(key, value);
      assert token[..|key|] == key;
      var j :| 0 <= j < |key| && key[j] == '=';
      assert token[j] == '=' && IndexOf(token, '=') <= j;
    }
  }

  function Decode(tokens: seq<string>): map<string, string> {
    if tokens == [] then map[]
    else
      var n := |tokens| - 1;
      var kv := DecodeToken(tokens[n]);
      Decode(tokens[..n])[kv.0 := kv.1]
  }

  /** The tokens of the keys in order. */
  ghost predicate TokensOf(tokens: seq<string>, order: seq<string>, m: map<string, string>) {
    |tokens| == |order|
    && forall i :: 0 <= i < |order| ==> order[i] in m && tokens[i] == Token(order[i], m[order[i]])
  }

  /** isupportTokens: a token for each key, in whatever order the map gives them. */
  method IsupportTokens(m: map<string, string>) returns (tokens: seq<string>, ghost order: seq<string>)
    ensures |tokens| == |m|
    ensures TokensOf(tokens, order, m) && (forall k :: k in m <==> k in order)
  {
    tokens, order := [], [];
    var keys := m.Keys;
    while keys != {}
      invariant keys <= m.Keys && |tokens| + |keys| == |m.Keys|
      invariant TokensOf(tokens, order, m)
      invariant forall k :: k in order <==> k in m && k !in keys
    {
      var k :| k in keys;
      keys := keys - {k};
      if m[k] == "" {
        tokens := tokens + [k];
      } else {
        tokens := tokens + [k + "=" + Escape(m[k])];
      }
      order := order + [k];
    }
  }

  lemma {:induction false} DecodesTokens(tokens: seq<string>, order: seq<string>, m: map<string, string>)
    requires TokensOf(tokens, order, m) && (forall k :: k in m ==> '=' !in k)
    ensures forall k :: k in order <==> k in Decode(tokens)
    ensures forall k :: k in order ==> k in m && Decode(tokens)[k] == m[k]
  {
    if tokens != [] {
      var n := |tokens| - 1;
      DecodesTokens(tokens[..n], order[..n], m);
      DecodesLast(tokens, order, m);
      LastOf(order);
    }
  }

  lemma LastOf(order: seq<string>)
    requires order != []
    ensures forall k :: k in order <==> k in order[..|order| - 1] || k == order[|order| - 1]
  {
    assert order == order[..|order| - 1] + [order[|order| - 1]];
  }

  lemma DecodesLast(tokens: seq<string>, order: seq<string>, m: map<string, string>)
    requires TokensOf(tokens, order, m) && (forall k :: k in m ==> '=' !in k) && tokens != []
    ensures var n := |tokens| - 1; order[n] in m && Decode(tokens) == Decode(tokens[..n])[order[n] := m[order[n]]]
  {
    var n := |tokens| - 1;
    assert tokens[n] == Token(order[n], m[order[n]]);
    DecodesToken(order[n], m[order[n]]);
  }

  lemma TokenIsPlain(key: string, value: string)
    requires ' ' !in key
    ensures ' ' !in Token(key, value)
  {
    EscapedIsPlain(value);
  }

  /** Decoding the tokens gives the map back, when no key holds a "=". */
  lemma TokensRoundTrip(tokens: seq<string>, order: seq<string>, m: map<string, string>)
    requires TokensOf(tokens, order, m) && (forall k :: k in m <==> k in order)
    requires forall k :: k in m ==> '=' !in k
    ensures Decode(tokens) == m
  {
    DecodesTokens(tokens, order, m);
  }

  /** No token holds a space, when no key does. */
  lemma TokensArePlain(tokens: seq<string>, order: seq<string>, m: map<string, string>)
    requires TokensOf(tokens, order, m) && (forall k :: k in m ==> ' ' !in k)
    ensures forall i :: 0 <= i < |tokens| ==> ' ' !in tokens[i]
  {
    forall i | 0 <= i < |tokens| ensures ' ' !in tokens[i] {
      TokenIsPlain(order[i], m[order[i]]);
    }
  }
}
