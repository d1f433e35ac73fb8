/** The dashboard's search bar: scanning, token parsing, printing and editing of a search string. */
module SearchParser {
  import opened Common

  datatype Token = Token(field: string, value: string, negated: bool, raw: string, start: nat, end: nat)

  datatype ParsedSearch = ParsedSearch(tokens: seq<Token>, freeText: string)

  // ---- Characters ----

  /** The characters that separate parts for the scanner. */
  predicate IsScanSpace(c: char) {
    c == ' ' || c == '\n' || c == '\t'
  }

  /** The characters JavaScript's `\s` class and `trim` treat as white space. */
  predicate IsJsSpace(c: char) {
    || '\t' <= c <= '\r' || c == ' ' || c == '\U{A0}' || c == '\U{1680}' || '\U{2000}' <= c <= '\U{200A}'
    || c == '\U{2028}' || c == '\U{2029}' || c == '\U{202F}' || c == '\U{205F}' || c == '\U{3000}' || c == '\U{FEFF}'
  }

  predicate IsFieldStart(c: char) {
    'A' <= c <= 'Z' || 'a' <= c <= 'z' || c == '_'
  }

  predicate IsFieldChar(c: char) {
    IsFieldStart(c) || '0' <= c <= '9' || c == '.' || c == '-'
  }

  predicate LegalField(s: string) {
    s != "" && IsFieldStart(s[0]) && forall i :: 0 <= i < |s| ==> IsFieldChar(s[i])
  }

  /** Lower-casing, exact wherever the result can be a legal field: no other character lowers into ASCII. */
  function LowerChar(c: char): char {
    if 'A' <= c <= 'Z' then (c as int + 32) as char
    else if c == '\U{212A}' then 'k'
    else c
  }

  function Lower(s: string): (r: string)
    ensures |r| == |s| && forall i :: 0 <= i < |s| ==> r[i] == LowerChar(s[i])
  {
    if s == "" then "" else [LowerChar(s[0])] + Lower(s[1..])
  }

  function TrimStart(s: string): string {
    if s != "" && IsJsSpace(s[0]) then TrimStart(s[1..]) else s
  }

  function TrimEnd(s: string): string {
    if s != "" && IsJsSpace(s[|s| - 1]) then TrimEnd(s[..|s| - 1]) else s
  }

  function Trim(s: string): string {
    TrimEnd(TrimStart(s))
  }

  // ---- Quoted values ----

  /** The text of a quoted value after its opening quote; the closing quote must be the last character. */
  function Unquote(rest: string, escaped: bool): Option<string> {
    if rest == "" then None
    else if escaped then Prefix(rest[0], Unquote(rest[1..], false))
    else if rest[0] == '\\' then Unquote(rest[1..], true)
    else if rest[0] == '"' then (if |rest| == 1 then Some("") else None)
    else Prefix(rest[0], Unquote(rest[1..], false))
  }

  function Prefix(c: char, tail: Option<string>): Option<string> {
    match tail
    case None => None
    case Some(s) => Some([c] + s)
  }

  function QuotedValue(raw: string): Option<string> {
    if raw != "" && raw[0] == '"' then Unquote(raw[1..], false) else None
  }

  /** The text with a backslash put before the marked characters. */
  function Spelled(value: string, marked: seq<bool>): string
    requires |marked| == |value|
  {
    if value == "" then ""
    else (if marked[0] then ['\\', value[0]] else [value[0]]) + Spelled(value[1..], marked[1..])
  }

  /** One way to write a value between quotes: every quote and every backslash in it has a backslash before it. */
  ghost predicate Spells(raw: string, value: string, marked: seq<bool>) {
    && |marked| == |value|
    && (forall i :: 0 <= i < |value| && value[i] in {'"', '\\'} ==> marked[i])
    && raw == Spelled(value, marked) + "\""
  }

  /** Reading a quoted text answers a value exactly when the text is one of the ways to write it. */
  lemma {:induction false} QuotedMeans(raw: string, value: string)
    ensures QuotedValue(raw) == Some(value)
       <==> raw != "" && raw[0] == '"' && exists marked: seq<bool> :: Spells(raw[1..], value, marked)
  {
    if raw != "" && raw[0] == '"' {
      if QuotedValue(raw) == Some(value) {
        var marked := MarksOf(raw[1..], value);
      }
      if marked: seq<bool> :| Spells(raw[1..], value, marked) {
        SpellingIsRead(raw[1..], value, marked);
      }
    }
  }

  lemma {:induction false} QuotedMeansAll(raw: string)
    ensures forall value: string ::
              QuotedValue(raw) == Some(value)
              <==> raw != "" && raw[0] == '"' && exists marked: seq<bool> :: Spells(raw[1..], value, marked)
  {
    forall value: string
      ensures QuotedValue(raw) == Some(value)
         <==> raw != "" && raw[0] == '"' && exists marked: seq<bool> :: Spells(raw[1..], value, marked)
    {
      QuotedMeans(raw, value);
    }
  }

  lemma {:induction false} MarksOf(rest: string, value: string) returns (marked: seq<bool>)
    requires Unquote(rest, false) == Some(value)
    ensures Spells(rest, value, marked)
    decreases |rest|
  {
    if rest[0] == '"' {
      marked := [];
    } else if rest[0] == '\\' {
      assert rest[1..][0] == rest[1] && rest[1..][1..] == rest[2..];
      var more := MarksOf(rest[2..], value[1..]);
      marked := [true] + more;
      SpelledCons(value, true, more);
    } else {
      var more := MarksOf(rest[1..], value[1..]);
      marked := [false] + more;
      SpelledCons(value, false, more);
    }
  }

  lemma {:induction false} SpelledCons(value: string, first: bool, more: seq<bool>)
    requires value != "" && |more| == |value| - 1
    ensures Spelled(value, [first] + more) == (if first then ['\\', value[0]] else [value[0]]) + Spelled(value[1..], more)
  {
    ConsParts(first, more);
  }

  lemma {:induction false} SpellingIsRead(rest: string, value: string, marked: seq<bool>)
    requires Spells(rest, value, marked)
    ensures Unquote(rest, false) == Some(value)
    decreases |value|
  {
    if value != "" {
      var tail := Spelled(value[1..], marked[1..]) + "\"";
      assert Spells(tail, value[1..], marked[1..]);
      SpellingIsRead(tail, value[1..], marked[1..]);
      HeadTail(value);
      if marked[0] {
        assert rest == ['\\', value[0]] + tail;
        assert rest[1..] == [value[0]] + tail && rest[1..][1..] == tail;
      } else {
        assert rest == [value[0]] + tail;
        ConsParts(value[0], tail);
      }
    }
  }

  /** The text read so far together with what the rest of the input still yields. */
  function Joined(value: string, tail: Option<string>): Option<string> {
    match tail
    case None => None
    case Some(s) => Some(value + s)
  }

  method ParseQuotedValue(raw: string) returns (r: Option<string>)
    ensures r == QuotedValue(raw)
    ensures forall value: string ::
              r == Some(value) <==> raw != "" && raw[0] == '"' && exists marked: seq<bool> :: Spells(raw[1..], value, marked)
  {
    QuotedMeansAll(raw);
    if raw == "" || raw[0] != '"' {
      return None;
    }
    var value := "";
    var escaped := false;
    var i := 1;
    JoinedNothing(Unquote(raw[1..], false));
    while i < |raw|
      invariant 1 <= i <= |raw|
      invariant Joined(value, Unquote(raw[i..], escaped)) == QuotedValue(raw)
    {
      var ch := raw[i];
      assert raw[i..][0] == ch && raw[i..][1..] == raw[i + 1..];
      JoinedStep(value, ch, Unquote(raw[i + 1..], false));
      if escaped {
        value := value + [ch];
        escaped := false;
      } else if ch == '\\' {
        escaped := true;
      } else if ch == '"' {
        return if i == |raw| - 1 then Some(value) else None;
      } else {
        value := value + [ch];
      }
      i := i + 1;
    }
    return None;
  }

  lemma {:induction false} JoinedNothing(tail: Option<string>)
    ensures Joined("", tail) == tail
  {
    if tail.Some? {
      assert "" + tail.value == tail.value;
    }
  }

  lemma {:induction false} JoinedStep(value: string, c: char, tail: Option<string>)
    ensures Joined(value, Prefix(c, tail)) == Joined(value + [c], tail)
    ensures value + "" == value
  {
    if tail.Some? {
      assert value + ([c] + tail.value) == (value + [c]) + tail.value;
    }
  }

  // ---- Tokens ----

  /** The first position of `c`, or the length when it does not occur. */
  function IndexOf(s: string, c: char): (n: nat)
    ensures n <= |s| && (n < |s| ==> s[n] == c)
    ensures forall i :: 0 <= i < n ==> s[i] != c
  {
    if s == "" || s[0] == c then 0 else 1 + IndexOf(s[1..], c)
  }

  predicate StartsWithSlashes(s: string) {
    |s| >= 2 && s[0] == '/' && s[1] == '/'
  }

  function TokenValue(rawValue: string): Option<string> {
    if rawValue != "" && rawValue[0] == '"' then QuotedValue(rawValue)
    else if rawValue != "" then Some(rawValue)
    else None
  }

  function ParseToken(raw: string, start: nat, end: nat): Option<Token> {
    var negated := raw != "" && raw[0] == '-';
    var body := if negated then raw[1..] else raw;
    var colon := IndexOf(body, ':');
    if colon == 0 || colon == |body| then None
    else
      var field := Lower(body[..colon]);
      var rawValue := body[colon + 1..];
      if !LegalField(field) || StartsWithSlashes(rawValue) then None
      else
        match TokenValue(rawValue)
        case None => None
        case Some(value) => Some(Token(field, value, negated, raw, start, end))
  }

  function FreeTextSegment(raw: string): string {
    match QuotedValue(raw)
    case None => raw
    case Some(text) => text
  }

  // ---- Scanning ----

  /** How far a part reaches: up to the first white space that is neither quoted nor escaped. */
  function ScanLength(s: string, inQuotes: bool, escaped: bool): (n: nat)
    ensures n <= |s|
  {
    if s == "" then 0
    else if escaped then 1 + ScanLength(s[1..], inQuotes, false)
    else if s[0] == '\\' then 1 + ScanLength(s[1..], inQuotes, true)
    else if s[0] == '"' then 1 + ScanLength(s[1..], !inQuotes, false)
    else if !inQuotes && IsScanSpace(s[0]) then 0
    else 1 + ScanLength(s[1..], inQuotes, false)
  }

  datatype Part = Part(start: nat, end: nat, raw: string)

  /** The parts of the text at position `base` of the input. */
  function Parts(s: string, base: nat): seq<Part>
    decreases |s|
  {
    if s == "" then []
    else if IsScanSpace(s[0]) then Parts(s[1..], base + 1)
    else
      var n := ScanLength(s, false, false);
      assert n > 0;
      [Part(base, base + n, s[..n])] + Parts(s[n..], base + n)
  }

  function TokensOf(parts: seq<Part>): seq<Token> {
    if parts == [] then []
    else
      var token := ParseToken(parts[0].raw, parts[0].start, parts[0].end);
      (if token.Some? then [token.value] else []) + TokensOf(parts[1..])
  }

  function TextsOf(parts: seq<Part>): seq<string> {
    if parts == [] then []
    else
      var token := ParseToken(parts[0].raw, parts[0].start, parts[0].end);
      (if token.Some? then [] else [FreeTextSegment(parts[0].raw)]) + TextsOf(parts[1..])
  }

  function Join(ss: seq<string>): string {
    if ss == [] then ""
    else if |ss| == 1 then ss[0]
    else ss[0] + " " + Join(ss[1..])
  }

  function Parsed(input: string): ParsedSearch {
    var parts := Parts(input, 0);
    ParsedSearch(TokensOf(parts), Trim(Join(TextsOf(parts))))
  }

  /** Where a part starting at `start` ends. */
  method ScanPart(input: string, start: nat) returns (index: nat)
    requires start <= |input|
    ensures index == start + ScanLength(input[start..], false, false)
  {
    index := start;
    var inQuotes, escaped := false, false;
    while index < |input|
      invariant start <= index <= |input|
      invariant index + ScanLength(input[index..], inQuotes, escaped) == start + ScanLength(input[start..], false, false)
    {
      var ch := input[index];
      assert input[index..][0] == ch && input[index..][1..] == input[index + 1..];
      if escaped {
        escaped := false;
        index := index + 1;
        continue;
      }
      if ch == '\\' {
        escaped := true;
        index := index + 1;
        continue;
      }
      if ch == '"' {
        inQuotes := !inQuotes;
        index := index + 1;
        continue;
      }
      if !inQuotes && IsScanSpace(ch) {
        break;
      }
      index := index + 1;
    }
  }

  lemma {:induction false} PartsStep(input: string, index: nat)
    requires index < |input|
    ensures IsScanSpace(input[index]) ==> Parts(input[index..], index) == Parts(input[index + 1..], index + 1)
    ensures !IsScanSpace(input[index]) ==>
              var n := ScanLength(input[index..], false, false);
              && 0 < n <= |input| - index
              && Parts(input[index..], index) ==
                 [Part(index, index + n, input[index..index + n])] + Parts(input[index + n..], index + n)
  {
    var s := input[index..];
    assert s[0] == input[index] && s[1..] == input[index + 1..];
    if !IsScanSpace(input[index]) {
      var n := ScanLength(s, false, false);
      assert s[..n] == input[index..index + n] && s[n..] == input[index + n..];
    }
  }

  lemma {:induction false} OneMore<T>(done: seq<T>, x: seq<T>, rest: seq<T>)
    ensures (done + x) + rest == done + (x + rest)
    ensures done + [] == done && [] + rest == rest
  {
  }

  /** The loops of the parser compute `Parsed`. */
  method ParseSearch(input: string) returns (r: ParsedSearch)
    ensures r == Parsed(input)
  {
    var tokens: seq<Token> := [];
    var freeTextSegments: seq<string> := [];
    var index := 0;
    assert input[0..] == input;
    while index < |input|
      invariant 0 <= index <= |input|
      invariant tokens + TokensOf(Parts(input[index..], index)) == TokensOf(Parts(input, 0))
      invariant freeTextSegments + TextsOf(Parts(input[index..], index)) == TextsOf(Parts(input, 0))
      decreases |input| - index
    {
      while index < |input| && IsScanSpace(input[index])
        invariant 0 <= index <= |input|
        invariant tokens + TokensOf(Parts(input[index..], index)) == TokensOf(Parts(input, 0))
        invariant freeTextSegments + TextsOf(Parts(input[index..], index)) == TextsOf(Parts(input, 0))
      {
        PartsStep(input, index);
        index := index + 1;
      }
      if index >= |input| {
        break;
      }
      PartsStep(input, index);
      var start := index;
      index := ScanPart(input, start);
      var raw := input[start..index];
      ghost var rest := Parts(input[index..], index);
      assert Parts(input[start..], start)[1..] == rest;
      var token := ParseToken(raw, start, index);
      if token.Some? {
        OneMore(tokens, [token.value], TokensOf(rest));
        OneMore(freeTextSegments, [], TextsOf(rest));
        tokens := tokens + [token.value];
      } else {
        var quoted := ParseQuotedValue(raw);
        var segment := if quoted.None? then raw else quoted.value;
        OneMore(freeTextSegments, [segment], TextsOf(rest));
        OneMore(tokens, [], TokensOf(rest));
        freeTextSegments := freeTextSegments + [segment];
      }
    }
    assert input[index..] == "";
    OneMore(tokens, [], []);
    OneMore(freeTextSegments, [], []);
    return ParsedSearch(tokens, Trim(Join(freeTextSegments)));
  }

  // ---- Printing ----

  predicate NeedsQuotes(value: string) {
    value == "" || exists i :: 0 <= i < |value| && (IsJsSpace(value[i]) || value[i] == '"')
  }

  /** Every occurrence of `c` replaced. */
  function Replace(s: string, c: char, image: string): string {
    if s == "" then "" else (if s[0] == c then image else [s[0]]) + Replace(s[1..], c, image)
  }

  function SerializeValue(value: string): string {
    if NeedsQuotes(value) then "\"" + Replace(Replace(value, '\\', "\\\\"), '"', "\\\"") + "\""
    else value
  }

  function FormatToken(field: string, value: string, negated: bool): string {
    (if negated then "-" else "") + field + ":" + SerializeValue(value)
  }

  function FormatAll(tokens: seq<Token>): seq<string> {
    if tokens == [] then []
    else [FormatToken(tokens[0].field, tokens[0].value, tokens[0].negated)] + FormatAll(tokens[1..])
  }

  function BuildSearch(tokens: seq<Token>, freeText: string): string {
    var text := Trim(freeText);
    Join(FormatAll(tokens) + (if text != "" then [text] else []))
  }

  function SerializeSearch(parsed: ParsedSearch): string {
    BuildSearch(parsed.tokens, parsed.freeText)
  }

  // ---- Editing ----

  /** The position of the first token with this raw text, or the length. */
  function FindRaw(tokens: seq<Token>, raw: string): (n: nat)
    ensures n <= |tokens| && (n < |tokens| ==> tokens[n].raw == raw)
    ensures forall i :: 0 <= i < n ==> tokens[i].raw != raw
  {
    if tokens == [] || tokens[0].raw == raw then 0 else 1 + FindRaw(tokens[1..], raw)
  }

  function WithoutField(tokens: seq<Token>, field: string): (r: seq<Token>)
    ensures forall i :: 0 <= i < |r| ==> r[i].field != field && r[i] in tokens
  {
    if tokens == [] then []
    else (if tokens[0].field != field then [tokens[0]] else []) + WithoutField(tokens[1..], field)
  }

  /** The token list without the token at position `k`. */
  function Removed(tokens: seq<Token>, k: nat): seq<Token>
    requires k < |tokens|
  {
    tokens[..k] + tokens[k + 1..]
  }

  method RemoveToken(input: string, raw: string) returns (r: string)
    ensures var p := Parsed(input);
            var k := FindRaw(p.tokens, raw);
            r == if k == |p.tokens| then Trim(input) else BuildSearch(Removed(p.tokens, k), p.freeText)
  {
    var parsed := ParseSearch(input);
    var tokenIndex := FindRaw(parsed.tokens, raw);
    if tokenIndex == |parsed.tokens| {
      return Trim(input);
    }
    return BuildSearch(Removed(parsed.tokens, tokenIndex), parsed.freeText);
  }

  /** The token list that replaces every token of `field` by one positive token. */
  function Replaced(tokens: seq<Token>, field: string, value: string): seq<Token> {
    WithoutField(tokens, field) + [Token(field, value, false, FormatToken(field, value, false), 0, 0)]
  }

  method ReplaceAllTokens(input: string, field: string, value: string) returns (r: string)
    ensures r == BuildSearch(Replaced(Parsed(input).tokens, Lower(field), value), Parsed(input).freeText)
  {
    var parsed := ParseSearch(input);
    return BuildSearch(Replaced(parsed.tokens, Lower(field), value), parsed.freeText);
  }
}
