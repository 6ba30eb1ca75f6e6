/** JSON Pointer fragments (RFC 6901) of an include. */
module Pointer {
  import opened Wrappers
  import opened SpecTree
  import Text

  // ---------------------------------------------------------------- text

  /** Replaces every `~c` by `r`. */
  function ReplaceTilde(s: string, c: char, r: char): string {
    if |s| < 2 then s
    else if s[0] == '~' && s[1] == c then [r] + ReplaceTilde(s[2..], c, r)
    else [s[0]] + ReplaceTilde(s[1..], c, r)
  }

  /** `~1` first, then `~0`. */
  function DecodePart(s: string): string {
    ReplaceTilde(ReplaceTilde(s, '1', '/'), '0', '~')
  }

  /** The reference: a token with its special characters escaped. */
  function Escape(token: string): string {
    if token == "" then ""
    else (if token[0] == '~' then "~0" else if token[0] == '/' then "~1" else [token[0]]) + Escape(token[1..])
  }

  /** Half way through decoding: only the tilde is still escaped. */
  function TildeEscaped(token: string): string {
    if token == "" then "" else (if token[0] == '~' then "~0" else [token[0]]) + TildeEscaped(token[1..])
  }

  lemma {:induction false} SlashesDecoded(token: string)
    ensures ReplaceTilde(Escape(token), '1', '/') == TildeEscaped(token)
  {
    if token != "" {
      SlashesDecoded(token[1..]);
      if token[0] == '~' {
        KeepPair('0', Escape(token[1..]), '1', '/');
      } else if token[0] == '/' {
        ReplacePair(Escape(token[1..]), '1', '/');
      } else {
        SkipPlain(token[0], Escape(token[1..]), '1', '/');
      }
    }
  }

  lemma {:induction false} TildesDecoded(token: string)
    ensures ReplaceTilde(TildeEscaped(token), '0', '~') == token
  {
    if token != "" {
      TildesDecoded(token[1..]);
      if token[0] == '~' {
        ReplacePair(TildeEscaped(token[1..]), '0', '~');
      } else {
        SkipPlain(token[0], TildeEscaped(token[1..]), '0', '~');
      }
    }
  }

  lemma ReplacePair(s: string, c: char, r: char)
    ensures ReplaceTilde(['~', c] + s, c, r) == [r] + ReplaceTilde(s, c, r)
  {
    assert (['~', c] + s)[2..] == s;
  }

  lemma KeepPair(d: char, s: string, c: char, r: char)
    requires d != c && d != '~'
    ensures ReplaceTilde(['~', d] + s, c, r) == ['~', d] + ReplaceTilde(s, c, r)
  {
    SkipPlain(d, s, c, r);
    var text := ['~', d] + s;
    assert text[1..] == [d] + s && text[0] == '~' && text[1] == d;
    assert ReplaceTilde(text, c, r) == ['~'] + ReplaceTilde([d] + s, c, r);
  }

  lemma SkipPlain(a: char, s: string, c: char, r: char)
    requires a != '~'
    ensures ReplaceTilde([a] + s, c, r) == [a] + ReplaceTilde(s, c, r)
  {
    assert ([a] + s)[1..] == s;
  }

  lemma DecodeEscape(token: string)
    ensures DecodePart(Escape(token)) == token
  {
    SlashesDecoded(token);
    TildesDecoded(token);
  }

  lemma {:induction false} EscapeHidesSlashes(token: string)
    ensures '/' !in Escape(token)
  {
    if token != "" { EscapeHidesSlashes(token[1..]); }
  }

  function TrimSlash(s: string): string {
    if s != "" && s[0] == '/' then s[1..] else s
  }

  /** The pointer of a token list: each token escaped behind a slash. */
  function Render(tokens: seq<string>): string {
    if tokens == [] then "" else "/" + Escape(tokens[0]) + Render(tokens[1..])
  }

  function Decoded(parts: seq<string>): seq<string> {
    seq(|parts|, i requires 0 <= i < |parts| => DecodePart(parts[i]))
  }

  function Escaped(tokens: seq<string>): seq<string> {
    seq(|tokens|, i requires 0 <= i < |tokens| => Escape(tokens[i]))
  }

  lemma {:induction false} RenderJoins(tokens: seq<string>)
    requires tokens != []
    ensures Render(tokens) == "/" + Text.Join(Escaped(tokens), '/')
    decreases |tokens|
  {
    if |tokens| > 1 {
      RenderJoins(tokens[1..]);
      assert Escaped(tokens)[1..] == Escaped(tokens[1..]);
    }
  }

  /** A token list survives rendering, splitting and decoding. */
  lemma SplitRender(tokens: seq<string>)
    requires tokens != []
    ensures Decoded(Text.Split(TrimSlash(Render(tokens)), '/')) == tokens
  {
    var parts := Escaped(tokens);
    RenderJoins(tokens);
    TrimOne(Text.Join(parts, '/'));
    forall i | 0 <= i < |tokens| ensures '/' !in parts[i] && DecodePart(parts[i]) == tokens[i] {
      EscapeHidesSlashes(tokens[i]);
      DecodeEscape(tokens[i]);
    }
    Text.SplitJoin(parts, '/');
  }

  lemma TrimOne(s: string)
    ensures TrimSlash("/" + s) == s
  {
  }

  // ---------------------------------------------------------------- numbers

  predicate Digits(s: string) {
    s != "" && forall i :: 0 <= i < |s| ==> '0' <= s[i] <= '9'
  }

  function Value(s: string): nat
    requires forall i :: 0 <= i < |s| ==> '0' <= s[i] <= '9'
  {
    if s == "" then 0 else Value(s[..|s| - 1]) * 10 + (s[|s| - 1] as nat - '0' as nat)
  }

  /** Decimal text with an optional sign. Text beyond 64 bits is an error too, as is any index that large. */
  function Atoi(s: string): Option<int> {
    if Digits(s) then Some(Value(s))
    else if s != "" && s[0] == '+' && Digits(s[1..]) then Some(Value(s[1..]))
    else if s != "" && s[0] == '-' && Digits(s[1..]) then Some(-(Value(s[1..]) as int))
    else None
  }

  // ---------------------------------------------------------------- steps

  /** One step down the tree; None for a missing key, a bad or missing index, or a scalar. */
  function PointerStep(node: Node, token: string): Option<Node> {
    match node
    case Mapping(entries) =>
      var i := KeyIndex(entries, token);
      if i < |entries| then Some(entries[i].value) else None
    case Sequence(items) =>
      var index := Atoi(token);
      if index.Some? && 0 <= index.value < |items| then Some(items[index.value]) else None
    case Scalar(_, _) => None
  }

  function Follow(node: Node, tokens: seq<string>): Option<Node> {
    if tokens == [] then Some(node)
    else match PointerStep(node, tokens[0])
         case None => None
         case Some(next) => Follow(next, tokens[1..])
  }

  function Selected(root: Node, pointer: string): Option<Node> {
    if pointer == "" then Some(root) else Follow(root, Decoded(Text.Split(TrimSlash(pointer), '/')))
  }

  /** The escaped pointer of any token list selects what following exactly those tokens reaches. */
  lemma SelectFollowsTokens(root: Node, tokens: seq<string>)
    ensures Selected(root, Render(tokens)) == Follow(root, tokens)
  {
    if tokens != [] { SplitRender(tokens); }
  }

  // ---------------------------------------------------------------- steps as in section 4 of RFC 6901

  /** An array index is 0 or digits without a leading zero. */
  predicate Canonical(token: string) {
    Digits(token) && (token[0] != '0' || |token| == 1)
  }

  function RfcStep(node: Node, token: string): Option<Node> {
    match node
    case Mapping(entries) =>
      var i := KeyIndex(entries, token);
      if i < |entries| then Some(entries[i].value) else None
    case Sequence(items) => if Canonical(token) && Value(token) < |items| then Some(items[Value(token)]) else None
    case Scalar(_, _) => None
  }

  /** An array index that is accepted although the RFC has no such index: signs or leading zeros. */
  predicate Loose(node: Node, token: string) {
    node.Sequence? && !Canonical(token) && Atoi(token).Some? && 0 <= Atoi(token).value < |node.items|
  }

  /** Steps agree with the RFC except on loose array indices. */
  lemma StepsAsInRfc(node: Node, token: string)
    ensures PointerStep(node, token) == RfcStep(node, token) <==> !Loose(node, token)
    ensures RfcStep(node, token).Some? ==> PointerStep(node, token) == RfcStep(node, token)
  {
  }

  function RfcFollow(node: Node, tokens: seq<string>): Option<Node> {
    if tokens == [] then Some(node)
    else match RfcStep(node, tokens[0])
         case None => None
         case Some(next) => RfcFollow(next, tokens[1..])
  }

  /** Some step that following the tokens takes is loose. */
  predicate TakesLooseStep(node: Node, tokens: seq<string>) {
    && tokens != [] && PointerStep(node, tokens[0]).Some?
    && (Loose(node, tokens[0]) || TakesLooseStep(PointerStep(node, tokens[0]).value, tokens[1..]))
  }

  /**
    Tokens lead to what the RFC says, and to nothing where the RFC has nothing, unless they reach a node through a
    loose step. What the RFC reaches is always reached.
   */
  lemma {:induction false} FollowsAsInRfc(node: Node, tokens: seq<string>)
    ensures Follow(node, tokens) == RfcFollow(node, tokens) <==>
      !(Follow(node, tokens).Some? && TakesLooseStep(node, tokens))
    ensures RfcFollow(node, tokens).Some? ==> Follow(node, tokens) == RfcFollow(node, tokens)
    decreases |tokens|
  {
    if tokens != [] {
      StepsAsInRfc(node, tokens[0]);
      if PointerStep(node, tokens[0]).Some? { FollowsAsInRfc(PointerStep(node, tokens[0]).value, tokens[1..]); }
    }
  }

  // ---------------------------------------------------------------- pointers as in section 3 of RFC 6901

  /** A token without its escapes; None if a tilde is followed by anything but `0` or `1`. */
  function RfcDecode(s: string): Option<string> {
    if s == "" then Some("")
    else if s[0] != '~' then
      match RfcDecode(s[1..])
      case None => None
      case Some(rest) => Some([s[0]] + rest)
    else if |s| < 2 || (s[1] != '0' && s[1] != '1') then None
    else
      match RfcDecode(s[2..])
      case None => None
      case Some(rest) => Some([if s[1] == '0' then '~' else '/'] + rest)
  }

  function RfcDecoded(parts: seq<string>): Option<seq<string>> {
    if parts == [] then Some([])
    else match RfcDecode(parts[0])
         case None => None
         case Some(token) =>
           match RfcDecoded(parts[1..])
           case None => None
           case Some(rest) => Some([token] + rest)
  }

  /** The tokens of a pointer: nothing, or a slash before each token. */
  function RfcTokens(pointer: string): Option<seq<string>> {
    if pointer == "" then Some([])
    else if pointer[0] != '/' then None
    else RfcDecoded(Text.Split(pointer[1..], '/'))
  }

  /** What the RFC selects; None for a pointer that is none. */
  function RfcSelected(root: Node, pointer: string): Option<Node> {
    match RfcTokens(pointer)
    case None => None
    case Some(tokens) => RfcFollow(root, tokens)
  }

  lemma {:induction false} EscapeOfDecoded(s: string)
    requires '/' !in s && RfcDecode(s).Some?
    ensures Escape(RfcDecode(s).value) == s
    decreases |s|
  {
    if s != "" {
      var token := RfcDecode(s).value;
      if s[0] == '~' {
        EscapeOfDecoded(s[2..]);
        assert token[1..] == RfcDecode(s[2..]).value;
        assert s == [s[0], s[1]] + s[2..];
      } else {
        EscapeOfDecoded(s[1..]);
        assert token[1..] == RfcDecode(s[1..]).value;
        assert s == [s[0]] + s[1..];
      }
    }
  }

  /** On tokens with proper escapes the two replacements in a row are the RFC's decoding. */
  lemma DecodesAsInRfc(s: string)
    requires '/' !in s && RfcDecode(s).Some?
    ensures DecodePart(s) == RfcDecode(s).value
  {
    EscapeOfDecoded(s);
    DecodeEscape(RfcDecode(s).value);
  }

  lemma {:induction false} AllDecodeAsInRfc(parts: seq<string>)
    requires RfcDecoded(parts).Some? && forall i :: 0 <= i < |parts| ==> '/' !in parts[i]
    ensures Decoded(parts) == RfcDecoded(parts).value
    decreases |parts|
  {
    if parts != [] {
      DecodesAsInRfc(parts[0]);
      AllDecodeAsInRfc(parts[1..]);
      assert Decoded(parts) == [DecodePart(parts[0])] + Decoded(parts[1..]);
    }
  }

  lemma SelectsTokens(root: Node, pointer: string)
    requires RfcTokens(pointer).Some?
    ensures Selected(root, pointer) == Follow(root, RfcTokens(pointer).value)
  {
    if pointer != "" {
      Text.JoinSplit(pointer[1..], '/');
      AllDecodeAsInRfc(Text.Split(pointer[1..], '/'));
    }
  }

  /**
    A pointer text selects what the RFC says, and nothing where the RFC has nothing, unless it selects a node although
    it has no leading slash or an improper escape, or reaches it through a loose step. What the RFC selects is always
    selected.
   */
  lemma SelectsAsInRfc(root: Node, pointer: string)
    ensures Selected(root, pointer) == RfcSelected(root, pointer) <==>
      !(Selected(root, pointer).Some? &&
        (RfcTokens(pointer).None? || TakesLooseStep(root, RfcTokens(pointer).value)))
    ensures RfcSelected(root, pointer).Some? ==> Selected(root, pointer) == RfcSelected(root, pointer)
  {
    if RfcTokens(pointer).Some? {
      SelectsTokens(root, pointer);
      FollowsAsInRfc(root, RfcTokens(pointer).value);
    }
  }

  lemma PlainTokens(token: string)
    requires '~' !in token && '/' !in token
    ensures RfcTokens("/" + token) == Some([token])
  {
    DecodesPlain(token);
    assert ("/" + token)[1..] == token;
    Text.SplitHead(token, '/', "");
    assert [token][1..] == [] && [token] + [] == [token];
    assert RfcDecoded([token]) == Some([token]);
  }

  lemma {:induction false} DecodesPlain(s: string)
    requires '~' !in s
    ensures RfcDecode(s) == Some(s)
  {
    if s != "" {
      assert s[0] in s;
      DecodesPlain(s[1..]);
      assert s == [s[0]] + s[1..];
    }
  }

  /** The pointer `/+1` selects the second item of any sequence that has one, where the RFC has no such index. */
  lemma SignIsLoose(items: seq<Node>)
    requires |items| > 1
    ensures Selected(Sequence(items), "/+1") == Some(items[1]) && RfcSelected(Sequence(items), "/+1") == None
  {
    PlainTokens("+1");
    assert "/" + "+1" == "/+1";
    SelectsTokens(Sequence(items), "/+1");
    assert "+1"[1..] == "1" && Value("1") == 1 by { assert "1"[..0] == ""; }
    assert !Digits("+1") && Atoi("+1") == Some(1);
    assert ["+1"][1..] == [];
  }

  lemma TildeTwo()
    ensures DecodePart("~2") == "~2" && RfcDecode("~2") == None && RfcDecoded(["~2"]) == None
  {
    assert "~2"[1..] == "2";
    assert ReplaceTilde("~2", '1', '/') == "~2" && ReplaceTilde("~2", '0', '~') == "~2";
  }

  /** The pointer `/~2` selects the entry of that name, where the RFC has no such pointer. */
  lemma TildeIsAccepted(v: Node)
    ensures Selected(Mapping([Entry(Scalar("", "~2"), v)]), "/~2") == Some(v)
    ensures RfcSelected(Mapping([Entry(Scalar("", "~2"), v)]), "/~2") == None
  {
    hide DecodePart, RfcDecode, RfcDecoded;
    TildeTwo();
    assert "/~2"[1..] == "~2";
    Text.SplitHead("~2", '/', "");
    assert Decoded(["~2"]) == ["~2"] && ["~2"][1..] == [];
    assert Text.Split("~2", '/') == ["~2"];
    var doc := Mapping([Entry(Scalar("", "~2"), v)]);
    assert IsKey(doc.entries[0].key, "~2");
    assert PointerStep(doc, "~2") == Some(v) && Follow(doc, ["~2"]) == Some(v);
    assert TrimSlash("/~2") == "~2";
  }
}
