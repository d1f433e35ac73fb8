/** What the scanner and the token parser make of printed tokens and of text behind them. */
module SearchScanning {
  import opened Common
  import opened SearchParser

  // ---- Running the scanner over a whole string ----

  datatype Mode = Mode(inQuotes: bool, escaped: bool)

  /** The scanner's mode after all of `s`, when no character of `s` ends the part. */
  function Through(s: string, m: Mode): Option<Mode> {
    if s == "" then Some(m)
    else if m.escaped then Through(s[1..], Mode(m.inQuotes, false))
    else if s[0] == '\\' then Through(s[1..], Mode(m.inQuotes, true))
    else if s[0] == '"' then Through(s[1..], Mode(!m.inQuotes, false))
    else if !m.inQuotes && IsScanSpace(s[0]) then None
    else Through(s[1..], m)
  }

  const CLEAN := Mode(false, false)

  lemma {:induction false} ThroughAppend(a: string, b: string, m: Mode)
    requires Through(a, m).Some?
    ensures Through(a + b, m) == Through(b, Through(a, m).value)
    ensures ScanLength(a + b, m.inQuotes, m.escaped)
         == |a| + ScanLength(b, Through(a, m).value.inQuotes, Through(a, m).value.escaped)
  {
    if a == "" {
      assert a + b == b;
    } else {
      assert (a + b)[1..] == a[1..] + b;
      var next :=
        if m.escaped then Mode(m.inQuotes, false)
        else if a[0] == '\\' then Mode(m.inQuotes, true)
        else if a[0] == '"' then Mode(!m.inQuotes, false)
        else m;
      ThroughAppend(a[1..], b, next);
    }
  }

  // ---- Unquoted text ----

  /** Whether the scanner is left waiting for the character after a backslash. */
  function OpenAfter(s: string, escaped: bool): bool {
    if s == "" then escaped else OpenAfter(s[1..], !escaped && s[0] == '\\')
  }

  /** The number of backslashes at the end. */
  function TrailingBackslashes(s: string): nat {
    if s != "" && s[|s| - 1] == '\\' then 1 + TrailingBackslashes(s[..|s| - 1]) else 0
  }

  lemma {:induction false} OpenAfterAppend(a: string, b: string, escaped: bool)
    ensures OpenAfter(a + b, escaped) == OpenAfter(b, OpenAfter(a, escaped))
  {
    if a == "" {
      assert a + b == b;
    } else {
      assert (a + b)[1..] == a[1..] + b;
      OpenAfterAppend(a[1..], b, !escaped && a[0] == '\\');
    }
  }

  /** The escape is left open exactly by an odd number of trailing backslashes. */
  lemma {:induction false} OpenIsOdd(s: string)
    ensures OpenAfter(s, false) <==> TrailingBackslashes(s) % 2 == 1
  {
    if s == "" {
    } else {
      var init, last := s[..|s| - 1], s[|s| - 1];
      assert s == init + [last];
      OpenIsOdd(init);
      OpenAfterAppend(init, [last], false);
      assert [last][1..] == "";
    }
  }

  predicate Unspaced(s: string) {
    forall i :: 0 <= i < |s| ==> !IsJsSpace(s[i]) && s[i] != '"'
  }

  lemma {:induction false} UnspacedThrough(s: string, escaped: bool)
    requires Unspaced(s)
    ensures Through(s, Mode(false, escaped)) == Some(Mode(false, OpenAfter(s, escaped)))
  {
    if s == "" {
    } else {
      UnspacedThrough(s[1..], !escaped && s[0] == '\\');
    }
  }

  // ---- Quoted text ----

  function Escaped(value: string): string {
    if value == "" then ""
    else (if value[0] == '\\' then "\\\\" else if value[0] == '"' then "\\\"" else [value[0]]) + Escaped(value[1..])
  }

  lemma {:induction false} ReplaceAppend(a: string, b: string, c: char, image: string)
    ensures Replace(a + b, c, image) == Replace(a, c, image) + Replace(b, c, image)
  {
    if a == "" {
      assert a + b == b;
    } else {
      assert (a + b)[1..] == a[1..] + b;
      ReplaceAppend(a[1..], b, c, image);
    }
  }

  /** Doubling backslashes first and escaping quotes second escapes each character once. */
  lemma {:induction false} ReplaceTwice(value: string)
    ensures Replace(Replace(value, '\\', "\\\\"), '"', "\\\"") == Escaped(value)
  {
    if value == "" {
    } else {
      var head := if value[0] == '\\' then "\\\\" else [value[0]];
      ReplaceTwice(value[1..]);
      ReplaceAppend(head, Replace(value[1..], '\\', "\\\\"), '"', "\\\"");
      assert head[1..] == (if value[0] == '\\' then "\\" else "");
      if value[0] == '\\' {
        assert "\\"[1..] == "";
      }
    }
  }

  /** Escaping is undone by the quoted-value reader, and keeps the scanner inside the quotes. */
  lemma {:induction false} EscapedIsRead(value: string, tail: string)
    ensures Unquote(Escaped(value) + "\"", false) == Some(value)
    ensures Through(Escaped(value) + tail, Mode(true, false)) == Through(tail, Mode(true, false))
  {
    if value == "" {
      assert "" + "\"" == "\"" && "" + tail == tail;
    } else {
      EscapedIsRead(value[1..], tail);
      var rest := Escaped(value[1..]);
      var head := if value[0] == '\\' then "\\\\" else if value[0] == '"' then "\\\"" else [value[0]];
      EscapedHead(head, value[0], rest + "\"", rest + tail);
      AppendAssoc(head, rest, "\"");
      AppendAssoc(head, rest, tail);
      assert [value[0]] + value[1..] == value;
    }
  }

  lemma {:induction false} EscapedHead(head: string, c: char, rest: string, scanned: string)
    requires head == if c == '\\' then "\\\\" else if c == '"' then "\\\"" else [c]
    ensures Unquote(head + rest, false) == if c == '\\' || c == '"' || rest != "" then Prefix(c, Unquote(rest, false)) else Unquote(head + rest, false)
    ensures Through(head + scanned, Mode(true, false)) == Through(scanned, Mode(true, false))
  {
    assert (head + rest)[1..] == head[1..] + rest && (head + scanned)[1..] == head[1..] + scanned;
    if |head| == 2 {
      assert head[1..] == [head[1]];
      assert ([head[1]] + rest)[1..] == rest && ([head[1]] + scanned)[1..] == scanned;
    } else {
      assert head[1..] + rest == rest && head[1..] + scanned == scanned;
    }
  }

  // ---- One printed token ----

  predicate LegalLower(field: string) {
    LegalField(field) && Lower(field) == field
  }

  lemma {:induction false} FirstColon(field: string, x: string)
    requires forall i :: 0 <= i < |field| ==> field[i] != ':'
    ensures IndexOf(field + ":" + x, ':') == |field|
  {
    var whole := field + ":" + x;
    assert whole[|field|] == ':';
    assert forall i :: 0 <= i < |field| ==> whole[i] == field[i];
  }

  function Sign(negated: bool): string {
    if negated then "-" else ""
  }

  lemma {:induction false} HeadedShape(field: string, negated: bool, x: string)
    requires LegalLower(field)
    ensures var raw, body := Sign(negated) + field + ":" + x, field + ":" + x;
            && raw != ""
            && (raw[0] == '-' <==> negated)
            && (if negated then raw[1..] else raw) == body
            && IndexOf(body, ':') == |field|
            && body[..|field|] == field && body[|field| + 1..] == x && |body| > |field| > 0
  {
    var raw, body := Sign(negated) + field + ":" + x, field + ":" + x;
    assert raw == Sign(negated) + body;
    assert forall i :: 0 <= i < |field| ==> IsFieldChar(field[i]);
    FirstColon(field, x);
  }

  /** A token with a legal field parses to whatever its value text reads as. */
  lemma {:induction false} HeadedToken(field: string, negated: bool, x: string, start: nat, end: nat)
    requires LegalLower(field)
    ensures ParseToken(Sign(negated) + field + ":" + x, start, end) ==
            if StartsWithSlashes(x) || TokenValue(x).None? then None
            else Some(Token(field, TokenValue(x).value, negated, Sign(negated) + field + ":" + x, start, end))
  {
    HeadedShape(field, negated, x);
    hide Sign;
    hide IndexOf;
  }

  predicate SlashValue(value: string) {
    !NeedsQuotes(value) && StartsWithSlashes(value)
  }

  predicate OpenValue(value: string) {
    !NeedsQuotes(value) && TrailingBackslashes(value) % 2 == 1
  }

  lemma {:induction false} SerializedReads(value: string)
    ensures StartsWithSlashes(SerializeValue(value)) <==> SlashValue(value)
    ensures TokenValue(SerializeValue(value)) == Some(value)
  {
    if NeedsQuotes(value) {
      ReplaceTwice(value);
      EscapedIsRead(value, "");
      ConsParts('"', Escaped(value) + "\"");
      assert SerializeValue(value) == "\"" + (Escaped(value) + "\"");
    }
  }

  /** A value is printed bare exactly when it is not empty and holds neither white space nor quotes; otherwise quoted. */
  lemma {:induction false} PrintedBare(value: string)
    ensures SerializeValue(value) == value
       <==> value != "" && forall i :: 0 <= i < |value| ==> !IsJsSpace(value[i]) && value[i] != '"'
    ensures SerializeValue(value) == value || QuotedValue(SerializeValue(value)) == Some(value)
  {
    SerializedReads(value);
    if NeedsQuotes(value) {
      ReplaceTwice(value);
      EscapedGrows(value);
      assert SerializeValue(value) == "\"" + (Escaped(value) + "\"");
      assert SerializeValue(value)[0] == '"';
    }
  }

  lemma {:induction false} EscapedGrows(value: string)
    ensures |Escaped(value)| >= |value|
  {
    if value != "" {
      EscapedGrows(value[1..]);
    }
  }

  /** A printed token parses back, unless its bare value starts with slashes. */
  lemma {:induction false} PrintedTokenParses(field: string, value: string, negated: bool)
    requires LegalLower(field)
    ensures var raw := FormatToken(field, value, negated);
            ParseToken(raw, 0, 0) == if SlashValue(value) then None else Some(Token(field, value, negated, raw, 0, 0))
  {
    HeadedToken(field, negated, SerializeValue(value), 0, 0);
    SerializedReads(value);
    hide SerializeValue;
    hide ParseToken;
    hide SlashValue;
  }

  /** A part as printed: the scanner starts it, crosses it, and may only be left with an open escape. */
  predicate GoodPart(p: string) {
    p != "" && !IsScanSpace(p[0]) && Through(p, CLEAN).Some? && !Through(p, CLEAN).value.inQuotes
  }

  predicate OpenPart(p: string) {
    Through(p, CLEAN) == Some(Mode(false, true))
  }

  lemma {:induction false} NoBackslash(s: string)
    requires forall i :: 0 <= i < |s| ==> s[i] != '\\'
    ensures !OpenAfter(s, false)
  {
    if s == "" {
    } else {
      NoBackslash(s[1..]);
    }
  }

  lemma {:induction false} PrintedTokenScans(field: string, value: string, negated: bool)
    requires LegalLower(field)
    ensures GoodPart(FormatToken(field, value, negated))
    ensures OpenPart(FormatToken(field, value, negated)) <==> OpenValue(value)
  {
    var head := Sign(negated) + field + ":";
    HeadScans(field, negated);
    SerializedScans(value);
    assert FormatToken(field, value, negated) == head + SerializeValue(value);
    hide SerializeValue;
    hide NeedsQuotes;
    hide FormatToken;
    ThroughAppend(head, SerializeValue(value), CLEAN);
    hide Through;
  }

  lemma {:induction false} HeadScans(field: string, negated: bool)
    requires LegalLower(field)
    ensures var head := Sign(negated) + field + ":";
            head != "" && !IsScanSpace(head[0]) && Through(head, CLEAN) == Some(CLEAN)
  {
    var head := Sign(negated) + field + ":";
    assert forall i :: 0 <= i < |field| ==> IsFieldChar(field[i]);
    assert Unspaced(head) && forall i :: 0 <= i < |head| ==> head[i] != '\\';
    UnspacedThrough(head, false);
    NoBackslash(head);
  }

  /** A printed value leaves the scanner outside quotes, and inside an escape exactly when it is bare and open. */
  lemma {:induction false} SerializedScans(value: string)
    ensures Through(SerializeValue(value), CLEAN) == Some(Mode(false, OpenValue(value)))
  {
    if NeedsQuotes(value) {
      ReplaceTwice(value);
      var body := Escaped(value) + "\"";
      assert SerializeValue(value) == "\"" + body;
      ConsParts('"', body);
      EscapedIsRead(value, "\"");
      assert "\""[1..] == "";
    } else {
      UnspacedThrough(value, false);
      OpenIsOdd(value);
    }
  }

  // ---- Parts of a joined string ----

  /**
   * How the scanner regroups printed parts in front of text with the parts `behind`: an open escape swallows the
   * separator and the next part.
   */
  function Regroup(ps: seq<string>, behind: seq<string>): (gs: seq<string>)
    ensures ps != [] || behind != [] ==> gs != []
  {
    if ps == [] then behind
    else
      var rest := Regroup(ps[1..], behind);
      if rest != [] && OpenPart(ps[0]) then [ps[0] + " " + rest[0]] + rest[1..] else [ps[0]] + rest
  }

  function Raws(parts: seq<Part>): seq<string> {
    if parts == [] then [] else [parts[0].raw] + Raws(parts[1..])
  }

  function RawsOf(s: string): seq<string> {
    Raws(Parts(s, 0))
  }

  ghost predicate AllGood(ps: seq<string>) {
    forall i :: 0 <= i < |ps| ==> GoodPart(ps[i])
  }

  function TextPart(text: string): seq<string> {
    if text != "" then [text] else []
  }

  lemma {:induction false} RegroupCons(p: string, ps: seq<string>, behind: seq<string>)
    ensures var rest := Regroup(ps, behind);
            Regroup([p] + ps, behind) == if rest != [] && OpenPart(p) then [p + " " + rest[0]] + rest[1..] else [p] + rest
  {
    ConsParts(p, ps);
  }

  lemma {:induction false} JoinCons(p: string, rest: seq<string>)
    ensures Join([p] + rest) == if rest == [] then p else p + " " + Join(rest)
  {
    ConsParts(p, rest);
  }

  lemma {:induction false} PartsOfPrinted(ps: seq<string>, text: string)
    requires AllGood(ps) && (text == "" || !IsScanSpace(text[0]))
    ensures var whole := Join(ps + TextPart(text));
            && RawsOf(whole) == Regroup(ps, RawsOf(text))
            && (ps != [] || text != "" ==> whole != "" && !IsScanSpace(whole[0]))
  {
    if ps == [] {
      ConsAppend([], TextPart(text));
      NoRaws();
    } else {
      var rest := ps[1..] + TextPart(text);
      assert GoodPart(ps[0]);
      hide GoodPart;
      hide OpenPart;
      hide RawsOf;
      hide Join;
      HeadTail(ps);
      AppendAssoc([ps[0]], ps[1..], TextPart(text));
      PartsOfPrinted(ps[1..], text);
      JoinedRaws(ps[0], rest);
      RegroupCons(ps[0], ps[1..], RawsOf(text));
      hide Regroup;
      if rest == [] {
        NoRaws();
      }
    }
  }

  /** One good part in front of others. */
  lemma {:induction false} JoinedRaws(p: string, rest: seq<string>)
    requires GoodPart(p) && (rest != [] ==> Join(rest) != "" && !IsScanSpace(Join(rest)[0]))
    ensures var whole, behind := Join([p] + rest), RawsOf(Join(rest));
            && whole != "" && !IsScanSpace(whole[0])
            && (rest != [] ==> behind != [])
            && RawsOf(whole) == if rest != [] && OpenPart(p) then [p + " " + behind[0]] + behind[1..]
                                else if rest != [] then [p] + behind
                                else [p]
  {
    hide OpenPart;
    JoinCons(p, rest);
    hide Join;
    if rest == [] {
      SinglePart(p);
      RawsCons(Part(0, |p|, p), []);
      ConsParts(Part(0, |p|, p), []);
    } else {
      hide GoodPart;
      hide Parts;
      hide Raws;
      JoinedHead(p, Join(rest), 0);
      PartsShift(Join(rest), 0, |p| + 1);
    }
  }

  lemma {:induction false} NoRaws()
    ensures RawsOf("") == [] && Join([]) == ""
  {
  }

  lemma {:induction false} PartsSkip(s: string, base: nat)
    ensures s != "" && IsScanSpace(s[0]) ==> Parts(s, base) == Parts(s[1..], base + 1)
    ensures Parts("", base) == []
  {
  }

  lemma {:induction false} FirstPart(s: string, base: nat, n: nat, piece: string, behind: string)
    requires s != "" && !IsScanSpace(s[0]) && n == ScanLength(s, false, false)
    requires s == piece + behind && |piece| == n
    ensures n > 0 && Parts(s, base) == [Part(base, base + n, piece)] + Parts(behind, base + n)
  {
    assert s[..n] == piece && s[n..] == behind;
  }

  lemma {:induction false} SpaceScan(rest: string)
    ensures ScanLength(" " + rest, false, false) == 0
    ensures ScanLength(" " + rest, false, true) == 1 + ScanLength(rest, false, false)
  {
    ConsParts(' ', rest);
  }

  lemma {:induction false} FirstOfRaws(s: string, base: nat, n: nat, piece: string, behind: string)
    requires s != "" && !IsScanSpace(s[0]) && n == ScanLength(s, false, false)
    requires s == piece + behind && |piece| == n
    ensures Raws(Parts(s, base)) == [piece] + Raws(Parts(behind, base + n))
  {
    FirstPart(s, base, n, piece, behind);
    RawsCons(Part(base, base + n, piece), Parts(behind, base + n));
  }

  /** A closed part ends at the separator. */
  lemma {:induction false} ClosedHead(p: string, rest: string, base: nat)
    requires GoodPart(p) && !OpenPart(p)
    ensures Raws(Parts(p + (" " + rest), base)) == [p] + Raws(Parts(rest, base + |p| + 1))
  {
    var tail := " " + rest;
    ThroughAppend(p, tail, CLEAN);
    SpaceScan(rest);
    ConsParts(' ', rest);
    PartsSkip(tail, base + |p|);
    hide Through;
    hide ScanLength;
    hide Parts;
    hide Raws;
    assert (p + tail)[0] == p[0];
    FirstOfRaws(p + tail, base, |p|, p, tail);
  }

  /** An open one swallows the separator and the first part behind it. */
  lemma {:induction false} OpenHead(p: string, rest: string, base: nat, k: nat)
    requires GoodPart(p) && OpenPart(p) && k == ScanLength(rest, false, false)
    ensures Raws(Parts(p + (" " + rest), base))
         == [p + " " + rest[..k]] + Raws(Parts(rest[k..], base + |p| + 1 + k))
  {
    var tail := " " + rest;
    ThroughAppend(p, tail, CLEAN);
    SpaceScan(rest);
    hide Through;
    hide ScanLength;
    hide Parts;
    hide Raws;
    assert (p + tail)[0] == p[0];
    Regrouped(p, rest, k);
    FirstOfRaws(p + tail, base, |p| + 1 + k, p + " " + rest[..k], rest[k..]);
  }

  /** The first part of a joined string, with the separator either ending it or swallowed by it. */
  lemma {:induction false} JoinedHead(p: string, rest: string, base: nat)
    requires GoodPart(p) && rest != "" && !IsScanSpace(rest[0])
    ensures var whole := p + " " + rest;
            var behind := Raws(Parts(rest, base + |p| + 1));
            && !IsScanSpace(whole[0])
            && behind != []
            && Raws(Parts(whole, base)) == if OpenPart(p) then [p + " " + behind[0]] + behind[1..] else [p] + behind
  {
    hide ScanLength;
    hide Parts;
    hide Raws;
    hide OpenPart;
    AppendAssoc(p, " ", rest);
    var k := ScanLength(rest, false, false);
    HeadAndRest(rest, k);
    FirstOfRaws(rest, base + |p| + 1, k, rest[..k], rest[k..]);
    ConsParts(rest[..k], Raws(Parts(rest[k..], base + |p| + 1 + k)));
    if OpenPart(p) {
      OpenHead(p, rest, base, k);
    } else {
      ClosedHead(p, rest, base);
    }
  }

  lemma {:induction false} Regrouped(p: string, rest: string, k: nat)
    requires k <= |rest|
    ensures p + (" " + rest) == (p + " " + rest[..k]) + rest[k..]
  {
  }

  lemma {:induction false} RawsCons(part: Part, rest: seq<Part>)
    ensures var raws := Raws([part] + rest);
            raws == [part.raw] + Raws(rest) && raws[0] == part.raw && raws[1..] == Raws(rest)
  {
    ConsParts(part, rest);
  }

  lemma {:induction false} SinglePart(s: string)
    requires s != "" && !IsScanSpace(s[0]) && Through(s, CLEAN).Some?
    ensures Parts(s, 0) == [Part(0, |s|, s)]
  {
    ThroughAppend(s, "", CLEAN);
    assert s + "" == s;
    FirstPart(s, 0, |s|, s, "");
    assert Parts("", |s|) == [];
  }

  lemma {:induction false} PartsShift(s: string, base: nat, other: nat)
    ensures Raws(Parts(s, base)) == Raws(Parts(s, other))
    decreases |s|
  {
    if s == "" {
    } else if IsScanSpace(s[0]) {
      PartsShift(s[1..], base + 1, other + 1);
    } else {
      var n := ScanLength(s, false, false);
      HeadAndRest(s, n);
      FirstPart(s, base, n, s[..n], s[n..]);
      FirstPart(s, other, n, s[..n], s[n..]);
      PartsShift(s[n..], base + n, other + n);
      RawsCons(Part(base, base + n, s[..n]), Parts(s[n..], base + n));
      RawsCons(Part(other, other + n, s[..n]), Parts(s[n..], other + n));
    }
  }

  // ---- What a parse yields, positions aside ----

  datatype Key = Key(field: string, value: string, negated: bool)

  function Keys(tokens: seq<Token>): (r: seq<Key>)
    ensures |r| == |tokens|
    ensures forall i :: 0 <= i < |r| ==> r[i] == Key(tokens[i].field, tokens[i].value, tokens[i].negated)
  {
    if tokens == [] then [] else [Key(tokens[0].field, tokens[0].value, tokens[0].negated)] + Keys(tokens[1..])
  }

  function KeyOf(raw: string): Option<Key> {
    match ParseToken(raw, 0, 0)
    case None => None
    case Some(token) => Some(Key(token.field, token.value, token.negated))
  }

  function RawKeys(raws: seq<string>): (r: seq<Key>)
    ensures |r| <= |raws|
  {
    if raws == [] then []
    else (if KeyOf(raws[0]).Some? then [KeyOf(raws[0]).value] else []) + RawKeys(raws[1..])
  }

  function RawTexts(raws: seq<string>): seq<string> {
    if raws == [] then []
    else (if KeyOf(raws[0]).Some? then [] else [FreeTextSegment(raws[0])]) + RawTexts(raws[1..])
  }

  lemma {:induction false} PartsYield(parts: seq<Part>)
    ensures Keys(TokensOf(parts)) == RawKeys(Raws(parts))
    ensures TextsOf(parts) == RawTexts(Raws(parts))
  {
    if parts == [] {
    } else {
      PartsYield(parts[1..]);
      assert Raws(parts)[1..] == Raws(parts[1..]);
      var token := ParseToken(parts[0].raw, parts[0].start, parts[0].end);
      if token.Some? {
        assert TokensOf(parts)[1..] == TokensOf(parts[1..]);
      } else {
        assert TokensOf(parts) == TokensOf(parts[1..]);
      }
    }
  }

  lemma {:induction false} RawKeysAppend(a: seq<string>, b: seq<string>)
    ensures RawKeys(a + b) == RawKeys(a) + RawKeys(b)
    ensures RawTexts(a + b) == RawTexts(a) + RawTexts(b)
  {
    hide KeyOf;
    hide FreeTextSegment;
    ConsAppend(a, b);
    if a != [] {
      RawKeysAppend(a[1..], b);
      var keys := if KeyOf(a[0]).Some? then [KeyOf(a[0]).value] else [];
      var texts := if KeyOf(a[0]).Some? then [] else [FreeTextSegment(a[0])];
      AppendAssoc(keys, RawKeys(a[1..]), RawKeys(b));
      AppendAssoc(texts, RawTexts(a[1..]), RawTexts(b));
    }
  }

  // ---- What parts and tokens are, told from the text ----

  /** How many quotes stand before a position that no backslash escapes. */
  function QuotesBefore(s: string, i: nat): nat
    requires i <= |s|
  {
    if i == 0 then 0
    else QuotesBefore(s, i - 1) + (if s[i - 1] == '"' && TrailingBackslashes(s[..i - 1]) % 2 == 0 then 1 else 0)
  }

  /** A blank, newline or tab outside quotes and behind no escaping backslash. */
  predicate Separates(s: string, i: nat)
    requires i < |s|
  {
    s[i] in {' ', '\n', '\t'} && TrailingBackslashes(s[..i]) % 2 == 0 && QuotesBefore(s, i) % 2 == 0
  }

  /** A part reaches up to the first character that separates. */
  lemma {:induction false} ScanIsFirst(s: string)
    ensures var n := ScanLength(s, false, false);
            && (n < |s| ==> Separates(s, n))
            && (forall i :: 0 <= i < n ==> !Separates(s, i))
  {
    assert s[0..] == s && s[..0] == "";
    ScanFrom(s, 0);
  }

  lemma {:induction false} ScanFrom(s: string, i: nat)
    requires i <= |s| && forall j :: 0 <= j < i ==> !Separates(s, j)
    ensures var n := i + ScanLength(s[i..], QuotesBefore(s, i) % 2 == 1, TrailingBackslashes(s[..i]) % 2 == 1);
            && n <= |s|
            && (n < |s| ==> Separates(s, n))
            && (forall j :: 0 <= j < n ==> !Separates(s, j))
    decreases |s| - i
  {
    hide QuotesBefore;
    hide TrailingBackslashes;
    if i < |s| {
      StateAfter(s, i);
      ScanNext(s, i, QuotesBefore(s, i) % 2 == 1, TrailingBackslashes(s[..i]) % 2 == 1);
      hide ScanLength;
      if !Separates(s, i) {
        ScanFrom(s, i + 1);
      }
    }
  }

  lemma {:induction false} StateAfter(s: string, i: nat)
    requires i < |s|
    ensures TrailingBackslashes(s[..i + 1]) % 2 == 1 <==> s[i] == '\\' && TrailingBackslashes(s[..i]) % 2 == 0
    ensures QuotesBefore(s, i + 1) % 2 == 1
       <==> (QuotesBefore(s, i) % 2 == 1) != (s[i] == '"' && TrailingBackslashes(s[..i]) % 2 == 0)
  {
    assert s[..i + 1][..i] == s[..i];
  }

  lemma {:induction false} ScanNext(s: string, i: nat, inQuotes: bool, escaped: bool)
    requires i < |s|
    ensures ScanLength(s[i..], inQuotes, escaped)
         == if !inQuotes && !escaped && s[i] in {' ', '\n', '\t'} then 0
            else 1 + ScanLength(s[i + 1..], inQuotes != (s[i] == '"' && !escaped), s[i] == '\\' && !escaped)
  {
    assert s[i..][0] == s[i] && s[i..][1..] == s[i + 1..];
  }

  /** A legal field as it reads after lower-casing. */
  predicate FieldText(field: string) {
    && field != ""
    && ('a' <= field[0] <= 'z' || field[0] == '_')
    && (forall i :: 0 <= i < |field| ==> 'a' <= field[i] <= 'z' || '0' <= field[i] <= '9' || field[i] in {'_', '.', '-'})
  }

  /**
   * A way to read a part as a token: an optional minus sign, a name whose lower-cased form is a field, a colon and a
   * value that is not empty and does not start with two slashes; a value that starts with a quote counts without its
   * quotes, and only if these close at its end.
   */
  predicate SpellsToken(raw: string, key: Key, name: string, rest: string) {
    && raw == Sign(key.negated) + (name + ":" + rest)
    && Lower(name) == key.field && FieldText(key.field)
    && rest != "" && (|rest| > 1 ==> rest[0] != '/' || rest[1] != '/')
    && (if rest[0] == '"' then QuotedValue(rest) == Some(key.value) else key.value == rest)
  }

  /** A part is a token exactly when it can be read as one. */
  lemma {:induction false} TokenIff(raw: string, key: Key)
    ensures KeyOf(raw) == Some(key) <==> exists name: string, rest: string :: SpellsToken(raw, key, name, rest)
  {
    if KeyOf(raw) == Some(key) {
      TokenSplits(raw, key);
    }
    if name: string, rest: string :| SpellsToken(raw, key, name, rest) {
      NamedReads(raw, key, name, rest);
    }
  }

  lemma {:induction false} TokenSplits(raw: string, key: Key)
    requires KeyOf(raw) == Some(key)
    ensures exists name: string, rest: string :: SpellsToken(raw, key, name, rest)
  {
    var body := if raw != "" && raw[0] == '-' then raw[1..] else raw;
    var colon := IndexOf(body, ':');
    TokenFacts(raw, key, body);
    hide *;
    SignSplits(raw);
    BodySpells(raw, key, body, colon);
  }

  lemma {:induction false} BodySpells(raw: string, key: Key, body: string, colon: nat)
    requires raw == Sign(key.negated) + body && colon < |body| && body[colon] == ':'
    requires LegalField(Lower(body[..colon])) && key.field == Lower(body[..colon])
    requires !StartsWithSlashes(body[colon + 1..]) && TokenValue(body[colon + 1..]) == Some(key.value)
    ensures exists name: string, rest: string :: SpellsToken(raw, key, name, rest)
  {
    hide *;
    SplitAt(body, colon);
    FieldsSpell(raw, key, body[..colon], body[colon + 1..]);
  }

  lemma {:induction false} TokenFacts(raw: string, key: Key, body: string)
    requires KeyOf(raw) == Some(key) && body == if raw != "" && raw[0] == '-' then raw[1..] else raw
    ensures key.negated <==> raw != "" && raw[0] == '-'
    ensures var colon := IndexOf(body, ':');
            && 0 < colon < |body|
            && LegalField(Lower(body[..colon])) && key.field == Lower(body[..colon])
            && !StartsWithSlashes(body[colon + 1..]) && TokenValue(body[colon + 1..]) == Some(key.value)
  {
    hide IndexOf;
    hide Lower;
    hide LegalField;
    hide TokenValue;
    hide StartsWithSlashes;
  }

  lemma {:induction false} SignSplits(raw: string)
    ensures var negated := raw != "" && raw[0] == '-'; raw == Sign(negated) + (if negated then raw[1..] else raw)
  {
    ConsAppend("", raw);
    if raw != "" {
      HeadTail(raw);
    }
  }

  lemma {:induction false} FieldsSpell(raw: string, key: Key, name: string, rest: string)
    requires raw == Sign(key.negated) + (name + ":" + rest)
    requires LegalField(Lower(name)) && key.field == Lower(name)
    requires !StartsWithSlashes(rest) && TokenValue(rest) == Some(key.value)
    ensures SpellsToken(raw, key, name, rest)
  {
    LegalIsField(name);
    ValueReads(rest, key.value);
    hide Lower;
    hide LegalField;
    hide FieldText;
    hide TokenValue;
    hide Sign;
  }

  lemma {:induction false} ValueReads(rest: string, value: string)
    ensures !StartsWithSlashes(rest) && TokenValue(rest) == Some(value) ==>
              && rest != "" && (|rest| > 1 ==> rest[0] != '/' || rest[1] != '/')
              && (if rest[0] == '"' then QuotedValue(rest) == Some(value) else value == rest)
  {
    hide QuotedValue;
  }

  lemma {:induction false} SplitAt(body: string, colon: nat)
    requires colon < |body| && body[colon] == ':'
    ensures body == body[..colon] + ":" + body[colon + 1..]
  {
  }

  lemma {:induction false} NamedReads(raw: string, key: Key, name: string, rest: string)
    requires SpellsToken(raw, key, name, rest)
    ensures KeyOf(raw) == Some(key)
  {
    hide QuotedValue;
    NamedToken(name, rest, key.negated);
    hide IndexOf;
    hide Lower;
  }

  lemma {:induction false} LegalIsField(name: string)
    ensures LegalField(Lower(name)) ==> FieldText(Lower(name))
  {
    forall i | 0 <= i < |name|
      ensures !('A' <= Lower(name)[i] <= 'Z')
    {
      assert Lower(name)[i] == LowerChar(name[i]);
    }
  }

  lemma {:induction false} NamedToken(name: string, rest: string, negated: bool)
    requires FieldText(Lower(name))
    ensures var raw := Sign(negated) + (name + ":" + rest);
            && (raw[0] == '-' <==> negated)
            && var body := if negated then raw[1..] else raw;
               IndexOf(body, ':') == |name| > 0 && body[..|name|] == name && body[|name| + 1..] == rest
  {
    NamePlain(name);
    hide Lower;
    hide FieldText;
    FirstColon(name, rest);
    hide IndexOf;
    var body := name + ":" + rest;
    SplitsAt(name, rest);
    if negated {
      ConsParts('-', body);
    } else {
      ConsAppend("", body);
      assert body[0] == name[0];
    }
  }

  lemma {:induction false} SplitsAt(name: string, rest: string)
    ensures var body := name + ":" + rest; body[..|name|] == name && body[|name| + 1..] == rest
  {
  }

  lemma {:induction false} NamePlain(name: string)
    requires FieldText(Lower(name))
    ensures name != "" && name[0] != '-' && forall i :: 0 <= i < |name| ==> name[i] != ':'
  {
    forall i | 0 <= i < |name|
      ensures name[i] != ':' && name[0] != '-'
    {
      assert Lower(name)[i] == LowerChar(name[i]) && Lower(name)[0] == LowerChar(name[0]);
    }
  }
}
