/** JSON Pointers: how names are escaped for them, and how they are read back (section 4 of RFC 6901). */
module JsonPointers {
  import opened Options
  import opened Strings

  function ReplaceAll(s: string, from: string, to: string): string
    requires from != ""
    decreases |s|
  {
    if s == "" then ""
    else if from <= s then to + ReplaceAll(s[|from|..], from, to)
    else [s[0]] + ReplaceAll(s[1..], from, to)
  }

  function Escape(token: string): string {
    ReplaceAll(ReplaceAll(token, "~", "~0"), "/", "~1")
  }

  function Unescape(token: string): string {
    ReplaceAll(ReplaceAll(token, "~1", "/"), "~0", "~")
  }

  lemma ReplaceStep(c: char, rest: string, from: string, to: string)
    requires from != ""
    ensures !(from <= [c] + rest) ==> ReplaceAll([c] + rest, from, to) == [c] + ReplaceAll(rest, from, to)
    ensures ReplaceAll(from + rest, from, to) == to + ReplaceAll(rest, from, to)
  {
    assert ([c] + rest)[1..] == rest;
    assert (from + rest)[|from|..] == rest;
  }

  function EscapeChar(c: char): string {
    if c == '~' then "~0" else if c == '/' then "~1" else [c]
  }

  lemma {:induction false} EscapeByChar(c: char, rest: string)
    ensures Escape([c] + rest) == EscapeChar(c) + Escape(rest)
  {
    var once := ReplaceAll(rest, "~", "~0");
    ReplaceStep(c, rest, "~", "~0");
    if c == '~' {
      assert [c] + rest == "~" + rest;
      assert "~0" + once == ['~'] + (['0'] + once);
      ReplaceStep('~', ['0'] + once, "/", "~1");
      ReplaceStep('0', once, "/", "~1");
      assert "~0" + Escape(rest) == ['~'] + (['0'] + Escape(rest));
    } else {
      ReplaceStep(c, once, "/", "~1");
      assert c == '/' ==> [c] + once == "/" + once;
    }
  }

  lemma {:induction false} SlashesBack(c: char, rest: string)
    ensures ReplaceAll(EscapeChar(c) + rest, "~1", "/") == (if c == '~' then "~0" else [c]) + ReplaceAll(rest, "~1", "/")
  {
    ReplaceStep(c, rest, "~1", "/");
    if c == '~' {
      assert "~0" + rest == ['~'] + (['0'] + rest);
      ReplaceStep('~', ['0'] + rest, "~1", "/");
      ReplaceStep('0', rest, "~1", "/");
      assert (['~'] + (['0'] + rest))[1] == '0';
    }
  }

  lemma {:induction false} TildesBack(c: char, rest: string)
    ensures ReplaceAll((if c == '~' then "~0" else [c]) + rest, "~0", "~") == [c] + ReplaceAll(rest, "~0", "~")
  {
    ReplaceStep(c, rest, "~0", "~");
    if c != '~' {
      assert ([c] + rest)[0] == c;
    }
  }

  /** Reading an escaped token gives the token again, and an escaped token holds no slash. */
  lemma {:induction false} EscapeRoundTrip(token: string)
    ensures Unescape(Escape(token)) == token && '/' !in Escape(token)
  {
    if token != "" {
      var c, rest := token[0], token[1..];
      assert token == [c] + rest;
      EscapeRoundTrip(rest);
      EscapeByChar(c, rest);
      SlashesBack(c, Escape(rest));
      TildesBack(c, ReplaceAll(Escape(rest), "~1", "/"));
    }
  }

  function EscapeAll(tokens: seq<string>): (r: seq<string>)
    ensures |r| == |tokens|
  {
    if tokens == [] then [] else [Escape(tokens[0])] + EscapeAll(tokens[1..])
  }

  function UnescapeAll(tokens: seq<string>): (r: seq<string>)
    ensures |r| == |tokens|
  {
    if tokens == [] then [] else [Unescape(tokens[0])] + UnescapeAll(tokens[1..])
  }

  /** The text of a pointer: each token escaped, with a slash before it. */
  function PointerText(tokens: seq<string>): string {
    if tokens == [] then "" else "/" + Escape(tokens[0]) + PointerText(tokens[1..])
  }

  /** The tokens of a pointer; a text that is not empty and does not begin with a slash is no pointer. */
  function Tokens(pointer: string): Option<seq<string>> {
    if pointer == "" then Some([])
    else if pointer[0] != '/' then None
    else Some(UnescapeAll(Split(pointer[1..], '/')))
  }

  lemma {:induction false} EscapedTokens(tokens: seq<string>)
    ensures UnescapeAll(EscapeAll(tokens)) == tokens
    ensures forall p | p in EscapeAll(tokens) :: '/' !in p
  {
    if tokens != [] {
      EscapeRoundTrip(tokens[0]);
      EscapedTokens(tokens[1..]);
      assert EscapeAll(tokens)[1..] == EscapeAll(tokens[1..]);
    }
  }

  lemma {:induction false} PointerIsJoin(tokens: seq<string>)
    requires tokens != []
    ensures PointerText(tokens) == "/" + Join(EscapeAll(tokens), '/')
  {
    var first, escaped := Escape(tokens[0]), EscapeAll(tokens);
    assert escaped[1..] == EscapeAll(tokens[1..]) && escaped[0] == first;
    if |tokens| == 1 {
      assert PointerText(tokens) == "/" + first + "";
    } else {
      PointerIsJoin(tokens[1..]);
      var rest := Join(EscapeAll(tokens[1..]), '/');
      assert "/" + first + ("/" + rest) == "/" + (first + ['/'] + rest);
    }
  }

  /** Reading a written pointer gives its tokens again, whatever characters they hold. */
  lemma PointerRoundTrip(tokens: seq<string>)
    ensures Tokens(PointerText(tokens)) == Some(tokens)
  {
    EscapedTokens(tokens);
    if tokens != [] {
      PointerIsJoin(tokens);
      SplitJoin(EscapeAll(tokens), '/');
      assert PointerText(tokens)[1..] == Join(EscapeAll(tokens), '/');
    }
  }

  lemma {:induction false} PointerAppend(first: seq<string>, second: seq<string>)
    ensures PointerText(first + second) == PointerText(first) + PointerText(second)
  {
    if first == [] {
      assert first + second == second;
    } else {
      assert (first + second)[1..] == first[1..] + second;
      PointerAppend(first[1..], second);
    }
  }
}
