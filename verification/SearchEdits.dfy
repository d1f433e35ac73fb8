/** What edits of the search bar mean once their result is parsed again. */
module SearchEdits {
  import opened Common
  import opened SearchParser
  import opened SearchScanning
  import opened SearchRoundTrip

  // ---- Parsed tokens ----

  lemma {:induction false} LowerIsLower(s: string)
    requires LegalField(Lower(s))
    ensures LegalLower(Lower(s))
  {
    var l := Lower(s);
    forall i | 0 <= i < |l|
      ensures LowerChar(l[i]) == l[i]
    {
      assert l[i] == LowerChar(s[i]) && IsFieldChar(l[i]);
    }
    assert Lower(l) == l;
  }

  /** Every parsed token has a legal lower-case field. */
  lemma {:induction false} ParsedFieldsLegal(parts: seq<Part>)
    ensures LegalTokens(TokensOf(parts))
  {
    if parts == [] {
    } else {
      ParsedFieldsLegal(parts[1..]);
      var raw := parts[0].raw;
      var token := ParseToken(raw, parts[0].start, parts[0].end);
      if token.Some? {
        var body := if raw[0] == '-' then raw[1..] else raw;
        LowerIsLower(body[..IndexOf(body, ':')]);
        assert forall i :: 0 < i < |TokensOf(parts)| ==> TokensOf(parts)[i] == TokensOf(parts[1..])[i - 1];
      }
    }
  }

  /** The token's raw text is what its span cuts out of the input. */
  predicate SpanFits(t: Token, input: string, base: nat) {
    base <= t.start < t.end <= |input| && t.raw == input[t.start..t.end]
  }

  /** Spans are exact, and lie apart in increasing order. */
  ghost predicate SpansFit(tokens: seq<Token>, input: string, base: nat) {
    && (forall i :: 0 <= i < |tokens| ==> SpanFits(tokens[i], input, base))
    && (forall i, j :: 0 <= i < j < |tokens| ==> tokens[i].end < tokens[j].start)
  }

  /** One more part in front of tokens that start later. */
  lemma {:induction false} SpansCons(token: Option<Token>, rest: seq<Token>, input: string, base: nat, end: nat)
    requires base < end <= |input|
    requires token.Some? ==> SpanFits(token.value, input, base) && token.value.end == end
    requires SpansFit(rest, input, end + 1)
    ensures SpansFit((if token.Some? then [token.value] else []) + rest, input, base)
  {
    hide SpanFits;
    var all := (if token.Some? then [token.value] else []) + rest;
    var shift := if token.Some? then 1 else 0;
    forall i | 0 <= i < |rest|
      ensures SpanFits(rest[i], input, base) && rest[i].start > end
    {
      SpanLater(rest[i], input, base, end + 1);
    }
    assert forall i :: shift <= i < |all| ==> all[i] == rest[i - shift];
  }

  lemma {:induction false} SpanLater(t: Token, input: string, base: nat, later: nat)
    requires SpanFits(t, input, later) && base <= later
    ensures SpanFits(t, input, base) && t.start >= later
  {
  }

  lemma {:induction false} TokensCons(parts: seq<Part>)
    requires parts != []
    ensures TokensOf(parts) ==
            (var token := ParseToken(parts[0].raw, parts[0].start, parts[0].end);
             (if token.Some? then [token.value] else []) + TokensOf(parts[1..]))
  {
  }

  /** From position `base`; after a part the next one starts beyond a separator. */
  lemma {:induction false} SpansFrom(input: string, base: nat)
    requires base <= |input|
    ensures SpansFit(TokensOf(Parts(input[base..], base)), input, base)
    ensures base < |input| && IsScanSpace(input[base]) ==> SpansFit(TokensOf(Parts(input[base..], base)), input, base + 1)
    decreases |input| - base
  {
    hide ParseToken;
    if base == |input| {
      assert input[base..] == "";
    } else {
      PartsStep(input, base);
      if IsScanSpace(input[base]) {
        SpansFrom(input, base + 1);
      } else {
        var n := ScanLength(input[base..], false, false);
        ScanStops(input[base..], false, false);
        SpansFrom(input, base + n);
        var part, rest := Part(base, base + n, input[base..base + n]), Parts(input[base + n..], base + n);
        ConsParts(part, rest);
        TokensCons([part] + rest);
        var token := ParseToken(part.raw, base, base + n);
        ParsedTokenSpan(part.raw, base, base + n);
        assert base + n == |input| ==> Parts(input[base + n..], base + n) == [];
        SpansCons(token, TokensOf(rest), input, base, base + n);
      }
    }
  }

  lemma {:induction false} ParsedTokenSpan(raw: string, start: nat, end: nat)
    ensures var token := ParseToken(raw, start, end);
            token.Some? ==> token.value.start == start && token.value.end == end && token.value.raw == raw
  {
  }

  /** For every input the token spans are ordered, disjoint and exact. */
  lemma {:induction false} TokenSpans(input: string)
    ensures SpansFit(Parsed(input).tokens, input, 0)
    ensures LegalTokens(Parsed(input).tokens)
  {
    assert input[0..] == input;
    SpansFrom(input, 0);
    ParsedFieldsLegal(Parts(input, 0));
  }

  // ---- Edits ----

  lemma {:induction false} WithoutFieldLegal(tokens: seq<Token>, field: string)
    requires LegalTokens(tokens)
    ensures LegalTokens(WithoutField(tokens, field))
  {
    forall i | 0 <= i < |WithoutField(tokens, field)|
      ensures LegalLower(WithoutField(tokens, field)[i].field)
    {
      var t := WithoutField(tokens, field)[i];
      assert t in tokens;
    }
  }

  lemma {:induction false} KeysAppend(a: seq<Token>, b: seq<Token>)
    ensures Keys(a + b) == Keys(a) + Keys(b)
  {
  }

  lemma {:induction false} KeysSlices(tokens: seq<Token>, k: nat)
    requires k < |tokens|
    ensures Keys(tokens[..k]) == Keys(tokens)[..k] && Keys(tokens[k + 1..]) == Keys(tokens)[k + 1..]
  {
    hide Keys;
    var keys, before, behind := Keys(tokens), Keys(tokens[..k]), Keys(tokens[k + 1..]);
    assert forall i :: 0 <= i < k ==> before[i] == keys[i];
    assert forall i :: 0 <= i < |behind| ==> behind[i] == keys[i + k + 1];
  }

  /** The keys of the other fields, in order. */
  function OtherKeys(keys: seq<Key>, field: string): seq<Key> {
    if keys == [] then []
    else (if keys[0].field != field then [keys[0]] else []) + OtherKeys(keys[1..], field)
  }

  lemma {:induction false} WithoutFieldKeys(tokens: seq<Token>, field: string)
    ensures Keys(WithoutField(tokens, field)) == OtherKeys(Keys(tokens), field)
  {
    if tokens == [] {
    } else {
      WithoutFieldKeys(tokens[1..], field);
      assert Keys(tokens)[1..] == Keys(tokens[1..]);
      var w, rest := WithoutField(tokens, field), WithoutField(tokens[1..], field);
      if tokens[0].field != field {
        assert w[1..] == rest;
      } else {
        assert w == rest;
      }
    }
  }

  lemma {:induction false} ReplacedKeys(tokens: seq<Token>, field: string, value: string)
    requires LegalTokens(tokens) && LegalLower(field)
    ensures LegalTokens(Replaced(tokens, field, value))
    ensures Keys(Replaced(tokens, field, value)) == OtherKeys(Keys(tokens), field) + [Key(field, value, false)]
  {
    WithoutFieldLegal(tokens, field);
    WithoutFieldKeys(tokens, field);
    var kept := WithoutField(tokens, field);
    KeysAppend(kept, Replaced(tokens, field, value)[|kept|..]);
    hide LegalLower;
  }

  /**
   * Re-parsing a replacement keeps the other fields' tokens in order, gives the field one positive token with the new
   * value and keeps the free text, exactly when the field is one the parser accepts, all the values printed are safe
   * and the free text is plain.
   */
  lemma {:induction false} ReplaceSurvives(input: string, field: string, value: string)
    ensures var text := Parsed(input).freeText;
            var next := Replaced(Parsed(input).tokens, Lower(field), value);
            var again := Parsed(BuildSearch(next, text));
            && (Keys(again.tokens) == OtherKeys(Keys(Parsed(input).tokens), Lower(field)) + [Key(Lower(field), value, false)]
                && again.freeText == text
                <==> LegalField(Lower(field)) && SafeTokens(next, text != "") && PlainText(text))
  {
    hide Parsed;
    hide PlainText;
    hide BuildSearch;
    hide SafeTokens;
    hide Replaced;
    hide OtherKeys;
    hide Lower;
    hide LegalField;
    TokenSpans(input);
    if LegalField(Lower(field)) {
      LowerIsLower(field);
      ReplacedKeys(Parsed(input).tokens, Lower(field), value);
      RoundTrip(Replaced(Parsed(input).tokens, Lower(field), value), Parsed(input).freeText);
    } else {
      var printed := BuildSearch(Replaced(Parsed(input).tokens, Lower(field), value), Parsed(input).freeText);
      TokenSpans(printed);
      LastFieldLegal(Parsed(printed).tokens, OtherKeys(Keys(Parsed(input).tokens), Lower(field)), Key(Lower(field), value, false));
    }
  }

  /** No parse yields a token with a field the parser does not accept. */
  lemma {:induction false} LastFieldLegal(tokens: seq<Token>, init: seq<Key>, last: Key)
    requires LegalTokens(tokens) && !LegalField(last.field)
    ensures Keys(tokens) != init + [last]
  {
    assert (init + [last])[|init|] == last;
    assert forall i :: 0 <= i < |tokens| ==> LegalLower(tokens[i].field) && LegalField(Keys(tokens)[i].field);
  }

  lemma {:induction false} RemovedKeys(tokens: seq<Token>, k: nat)
    requires LegalTokens(tokens) && k < |tokens|
    ensures LegalTokens(Removed(tokens, k))
    ensures Keys(Removed(tokens, k)) == Keys(tokens)[..k] + Keys(tokens)[k + 1..]
  {
    KeysAppend(tokens[..k], tokens[k + 1..]);
    KeysSlices(tokens, k);
    hide LegalLower;
  }

  /**
   * Re-parsing after a removal gives the other tokens, the first one with that raw text gone, and the same free text,
   * exactly when the tokens left are safe and the free text is plain.
   */
  lemma {:induction false} RemoveSurvives(input: string, raw: string)
    requires FindRaw(Parsed(input).tokens, raw) < |Parsed(input).tokens|
    ensures var text := Parsed(input).freeText;
            var k := FindRaw(Parsed(input).tokens, raw);
            var keys := Keys(Parsed(input).tokens);
            var next := Removed(Parsed(input).tokens, k);
            var again := Parsed(BuildSearch(next, text));
            && (Keys(again.tokens) == keys[..k] + keys[k + 1..] && again.freeText == text
                <==> SafeTokens(next, text != "") && PlainText(text))
  {
    var k := FindRaw(Parsed(input).tokens, raw);
    TokenSpans(input);
    RemovedKeys(Parsed(input).tokens, k);
    RoundTrip(Removed(Parsed(input).tokens, k), Parsed(input).freeText);
    hide Parsed;
    hide PlainText;
    hide BuildSearch;
    hide SafeTokens;
    hide Removed;
    hide Keys;
    hide FindRaw;
  }

  // ---- Removing a token that is not there trims the input ----

  ghost predicate AllScanSpace(s: string) {
    forall i :: 0 <= i < |s| ==> IsScanSpace(s[i])
  }

  /** The scanner's mode after one character. */
  function ModeNext(m: Mode, c: char): Mode {
    if m.escaped then Mode(m.inQuotes, false)
    else if c == '\\' then Mode(m.inQuotes, true)
    else if c == '"' then Mode(!m.inQuotes, false)
    else m
  }

  lemma {:induction false} ScanNext(s: string, m: Mode)
    requires s != ""
    ensures ScanLength(s, m.inQuotes, m.escaped) ==
            if m == CLEAN && IsScanSpace(s[0]) then 0
            else 1 + ScanLength(s[1..], ModeNext(m, s[0]).inQuotes, ModeNext(m, s[0]).escaped)
  {
  }

  /** The scanner's mode after all of `s`, separators included. */
  function ModeAfter(s: string, m: Mode): Mode {
    if s == "" then m
    else ModeAfter(s[1..], ModeNext(m, s[0]))
  }

  lemma {:induction false} LeadingSpace(lead: string, core: string, base: nat)
    requires AllScanSpace(lead)
    ensures Parts(lead + core, base) == Parts(core, base + |lead|)
  {
    if lead == "" {
      assert lead + core == core;
    } else {
      assert (lead + core)[1..] == lead[1..] + core;
      LeadingSpace(lead[1..], core, base + 1);
    }
  }

  /** Appending separators to text that ends outside quotes and escapes does not lengthen the part being scanned. */
  lemma {:induction false} ScanIgnoresTail(s: string, tail: string, m: Mode)
    requires AllScanSpace(tail) && ModeAfter(s, m) == CLEAN
    ensures ScanLength(s + tail, m.inQuotes, m.escaped) == ScanLength(s, m.inQuotes, m.escaped)
    ensures ModeAfter(s[ScanLength(s, m.inQuotes, m.escaped)..], CLEAN) == CLEAN
  {
    ConsAppend(s, tail);
    HeadAndRest(s, 0);
    assert s[..0] + s[0..] == s[0..];
    if s == "" {
      ScanAtSpace(tail);
    } else {
      hide ModeNext;
      ScanNext(s, m);
      ScanNext(s + tail, m);
      if !(m == CLEAN && IsScanSpace(s[0])) {
        var next := ModeNext(m, s[0]);
        ScanIgnoresTail(s[1..], tail, next);
        var n := ScanLength(s[1..], next.inQuotes, next.escaped);
        SuffixOfTail(s, n);
      }
    }
  }

  lemma {:induction false} ScanAtSpace(tail: string)
    requires AllScanSpace(tail)
    ensures ScanLength(tail, false, false) == 0
  {
  }

  lemma {:induction false} SuffixOfTail(s: string, n: nat)
    requires n + 1 <= |s|
    ensures s[1..][n..] == s[n + 1..]
  {
  }

  lemma {:induction false} TrailingSpace(core: string, tail: string, base: nat)
    requires AllScanSpace(tail) && ModeAfter(core, CLEAN) == CLEAN
    ensures Parts(core + tail, base) == Parts(core, base)
    decreases |core|, 1
  {
    ConsAppend(core, tail);
    PartsSkip(core, base);
    PartsSkip(core + tail, base);
    if core == "" {
      hide Parts;
      LeadingSpace(tail, "", base);
      PartsSkip("", base + |tail|);
      TakeAll(tail);
      assert tail + "" == tail;
    } else if IsScanSpace(core[0]) {
      hide Parts;
      TrailingSpace(core[1..], tail, base + 1);
    } else {
      TrailingPart(core, tail, base);
    }
  }

  lemma {:induction false} TrailingPart(core: string, tail: string, base: nat)
    requires AllScanSpace(tail) && ModeAfter(core, CLEAN) == CLEAN && core != "" && !IsScanSpace(core[0])
    ensures Parts(core + tail, base) == Parts(core, base)
    decreases |core|, 0
  {
    hide Parts;
    hide ScanLength;
    hide ModeAfter;
    var n := ScanLength(core, false, false);
    ScanIgnoresTail(core, tail, CLEAN);
    HeadAndRest(core, n);
    FirstPart(core, base, n, core[..n], core[n..]);
    AppendAssoc(core[..n], core[n..], tail);
    ConsAppend(core, tail);
    FirstPart(core + tail, base, n, core[..n], core[n..] + tail);
    TrailingSpace(core[n..], tail, base + n);
  }

  // ---- What trimmed separators meant to an open quote or escape ----

  lemma {:induction false} ThroughOfScan(s: string, m: Mode)
    requires ScanLength(s, m.inQuotes, m.escaped) == |s|
    ensures Through(s, m) == Some(ModeAfter(s, m))
  {
    if s != "" {
      ScanNext(s, m);
      ThroughOfScan(s[1..], ModeNext(m, s[0]));
    }
  }

  /** A part that ends before the text does is the same whatever follows the text. */
  lemma {:induction false} ScanStopsEarly(s: string, tail: string, m: Mode)
    requires ScanLength(s, m.inQuotes, m.escaped) < |s|
    ensures ScanLength(s + tail, m.inQuotes, m.escaped) == ScanLength(s, m.inQuotes, m.escaped)
    ensures ModeAfter(s[ScanLength(s, m.inQuotes, m.escaped)..], CLEAN) == ModeAfter(s, m)
  {
    ConsAppend(s, tail);
    ScanNext(s, m);
    ScanNext(s + tail, m);
    if m == CLEAN && IsScanSpace(s[0]) {
      assert s[0..] == s;
    } else {
      var next := ModeNext(m, s[0]);
      ScanStopsEarly(s[1..], tail, next);
      SuffixOfTail(s, ScanLength(s[1..], next.inQuotes, next.escaped));
    }
  }

  /** An open quote swallows all separators, an open escape the first one. */
  lemma {:induction false} TailScan(tail: string, m: Mode)
    requires AllScanSpace(tail) && m != CLEAN
    ensures m.inQuotes ==> ScanLength(tail, m.inQuotes, m.escaped) == |tail|
    ensures !m.inQuotes && tail != "" ==> ScanLength(tail, m.inQuotes, m.escaped) == 1
  {
    if tail != "" {
      if m.inQuotes {
        TailScan(tail[1..], Mode(true, false));
      } else {
        ScanAtSpace(tail[1..]);
      }
    }
  }

  /** Separators behind an open quote or escape go to the last part. */
  lemma {:induction false} TrailingGlue(core: string, tail: string) returns (init: seq<string>, last: string, more: string)
    requires AllScanSpace(tail) && tail != "" && ModeAfter(core, CLEAN) != CLEAN
    ensures RawsOf(core) == init + [last] && RawsOf(core + tail) == init + [last + more]
    ensures more != "" && AllScanSpace(more)
    ensures last != "" && Through(last, CLEAN).Some? && Through(last, CLEAN) != Some(CLEAN)
    decreases |core|
  {
    ConsAppend(core, tail);
    PartsSkip(core, 0);
    PartsSkip(core + tail, 0);
    if IsScanSpace(core[0]) {
      init, last, more := TrailingGlue(core[1..], tail);
      PartsShift(core[1..], 0, 1);
      PartsShift(core[1..] + tail, 0, 1);
    } else {
      var n := ScanLength(core, false, false);
      HeadAndRest(core, n);
      FirstPart(core, 0, n, core[..n], core[n..]);
      RawsCons(Part(0, n, core[..n]), Parts(core[n..], n));
      PartsShift(core[n..], 0, n);
      if n < |core| {
        ScanStopsEarly(core, tail, CLEAN);
        AppendAssoc(core[..n], core[n..], tail);
        FirstPart(core + tail, 0, n, core[..n], core[n..] + tail);
        RawsCons(Part(0, n, core[..n]), Parts(core[n..] + tail, n));
        PartsShift(core[n..] + tail, 0, n);
        init, last, more := TrailingGlue(core[n..], tail);
        AppendAssoc([core[..n]], init, [last]);
        AppendAssoc([core[..n]], init, [last + more]);
        init := [core[..n]] + init;
      } else {
        ThroughOfScan(core, CLEAN);
        init, last := [], core;
        more := LastGlue(core, tail);
        PartsSkip("", 0);
        assert core[..n] == core && core[n..] == "";
        assert [] + [last] == [last] && [] + [last + more] == [last + more];
      }
    }
  }

  lemma {:induction false} LastGlue(core: string, tail: string) returns (more: string)
    requires AllScanSpace(tail) && tail != "" && core != "" && !IsScanSpace(core[0])
    requires Through(core, CLEAN).Some? && Through(core, CLEAN) != Some(CLEAN)
    ensures more != "" && AllScanSpace(more) && RawsOf(core + tail) == [core + more]
  {
    var m := Through(core, CLEAN).value;
    ThroughAppend(core, tail, CLEAN);
    TailScan(tail, m);
    var k := ScanLength(tail, m.inQuotes, m.escaped);
    more := tail[..k];
    HeadAndRest(tail, k);
    AppendAssoc(core, more, tail[k..]);
    ConsAppend(core, tail);
    FirstPart(core + tail, 0, |core| + k, core + more, tail[k..]);
    LeadingSpace(tail[k..], "", |core| + k);
    assert tail[k..] + "" == tail[k..];
    PartsSkip("", |core| + |tail|);
    RawsCons(Part(0, |core| + k, core + more), []);
    assert [Part(0, |core| + k, core + more)] + [] == [Part(0, |core| + k, core + more)];
  }

  lemma {:induction false} UnquoteThrough(rest: string, escaped: bool)
    requires Unquote(rest, escaped).Some?
    ensures Through(rest, Mode(true, escaped)) == Some(CLEAN) && rest != "" && rest[|rest| - 1] == '"'
  {
    if !escaped && rest[0] == '"' {
      assert rest[1..] == "";
    } else if !escaped && rest[0] == '\\' {
      UnquoteThrough(rest[1..], true);
    } else {
      UnquoteThrough(rest[1..], false);
    }
  }

  /** Text with an open quote or escape is no quoted value, and separators behind it do not make it one. */
  lemma {:induction false} OpenIsNotQuoted(s: string, more: string)
    requires Through(s, CLEAN) != Some(CLEAN) && more != "" && AllScanSpace(more)
    ensures QuotedValue(s).None? && QuotedValue(s + more).None?
  {
    if QuotedValue(s).Some? {
      UnquoteThrough(s[1..], false);
    }
    if QuotedValue(s + more).Some? {
      UnquoteThrough((s + more)[1..], false);
    }
  }

  lemma {:induction false} IndexOfAppend(s: string, more: string)
    requires AllScanSpace(more)
    ensures IndexOf(s + more, ':') == if IndexOf(s, ':') < |s| then IndexOf(s, ':') else |s + more|
  {
    var i := IndexOf(s + more, ':');
    if i < |s| {
      assert s[i] == (s + more)[i];
    }
    if IndexOf(s, ':') < |s| {
      assert (s + more)[IndexOf(s, ':')] == ':';
    }
  }

  /** A legal field has no quotes, backslashes or spaces, so the scanner's mode depends on the value only. */
  lemma {:induction false} FieldThrough(head: string, value: string)
    requires head != "" && LegalField(Lower(head))
    ensures Through(head + ":" + value, CLEAN) == Through(value, CLEAN)
    ensures Through("-" + head + ":" + value, CLEAN) == Through(value, CLEAN)
  {
    forall i | 0 <= i < |head|
      ensures !IsJsSpace(head[i]) && head[i] != '"' && head[i] != '\\'
    {
      assert IsFieldChar(Lower(head)[i]) && Lower(head)[i] == LowerChar(head[i]);
    }
    hide Lower;
    UnspacedClean(head + ":", value);
    UnspacedClean("-" + head + ":", value);
  }

  lemma {:induction false} UnspacedClean(head: string, value: string)
    requires Unspaced(head) && forall i :: 0 <= i < |head| ==> head[i] != '\\'
    ensures Through(head + value, CLEAN) == Through(value, CLEAN)
  {
    UnspacedThrough(head, false);
    NoBackslash(head);
    ThroughAppend(head, value, CLEAN);
  }

  /** What text parses to, by its sign, field and value. */
  lemma {:induction false} KeyOfParts(raw: string, negated: bool, body: string, colon: nat)
    requires raw != "" && negated == (raw[0] == '-') && body == (if negated then raw[1..] else raw)
    requires colon == IndexOf(body, ':')
    ensures KeyOf(raw) ==
            if colon == 0 || colon == |body| then None
            else
              var field, value := Lower(body[..colon]), body[colon + 1..];
              if !LegalField(field) || StartsWithSlashes(value) || TokenValue(value).None? then None
              else Some(Key(field, TokenValue(value).value, negated))
  {
    hide Lower;
    hide LegalField;
    hide TokenValue;
    hide IndexOf;
  }

  /** What an open part parses to, and what it parses to with separators swallowed. */
  lemma {:induction false} OpenPartGrows(raw: string, more: string)
    requires raw != "" && Through(raw, CLEAN) != Some(CLEAN) && more != "" && AllScanSpace(more)
    ensures KeyOf(raw).Some? <==> KeyOf(raw + more).Some?
    ensures KeyOf(raw).Some? ==> KeyOf(raw + more) != KeyOf(raw)
    ensures FreeTextSegment(raw) == raw && FreeTextSegment(raw + more) == raw + more
  {
    hide Lower;
    hide LegalField;
    hide Through;
    hide StartsWithSlashes;
    hide TokenValue;
    hide KeyOf;
    hide IndexOf;
    hide QuotedValue;
    OpenIsNotQuoted(raw, more);
    var negated := raw[0] == '-';
    var body := if negated then raw[1..] else raw;
    ConsAppend(raw, more);
    IndexOfAppend(body, more);
    var colon := IndexOf(body, ':');
    KeyOfParts(raw, negated, body, colon);
    KeyOfParts(raw + more, negated, body + more, IndexOf(body + more, ':'));
    if 0 < colon < |body| {
      var head, value := body[..colon], body[colon + 1..];
      SplitAtColon(body, more, colon);
      if LegalField(Lower(head)) {
        AppendAssoc("-", head, ":" + value);
        AppendAssoc("-" + head, ":", value);
        AppendAssoc(head, ":", value);
        HeadTail(raw);
        FieldThrough(head, value);
        OpenValueGrows(value, more);
      }
    }
  }

  lemma {:induction false} SplitAtColon(body: string, more: string, colon: nat)
    requires colon < |body| && body[colon] == ':'
    ensures var head, value := body[..colon], body[colon + 1..];
            && body == head + ":" + value
            && (body + more)[..colon] == head && (body + more)[colon + 1..] == value + more
  {
  }

  lemma {:induction false} OpenValueGrows(value: string, more: string)
    requires Through(value, CLEAN) != Some(CLEAN) && more != "" && AllScanSpace(more)
    ensures value != "" && (StartsWithSlashes(value + more) <==> StartsWithSlashes(value))
    ensures TokenValue(value).Some? <==> TokenValue(value + more).Some?
    ensures TokenValue(value).Some? ==> TokenValue(value + more) != TokenValue(value)
  {
    OpenIsNotQuoted(value, more);
    assert |value + more| > |value|;
  }

  lemma {:induction false} TrimEndMore(s: string, more: string)
    requires AllScanSpace(more)
    ensures TrimEnd(s + more) == TrimEnd(s)
  {
    if more == "" {
      assert s + more == s;
    } else {
      assert (s + more)[..|s + more| - 1] == s + more[..|more| - 1];
      TrimEndMore(s, more[..|more| - 1]);
    }
  }

  lemma {:induction false} TrimMore(s: string, more: string)
    requires AllScanSpace(more)
    ensures Trim(s + more) == Trim(s)
  {
    ConsAppend(s, more);
    if s == "" {
      AllSpaceTrims(more);
    } else if IsJsSpace(s[0]) {
      TrimMore(s[1..], more);
    } else {
      TrimEndMore(s, more);
    }
  }

  lemma {:induction false} AllSpaceTrims(more: string)
    requires AllScanSpace(more)
    ensures TrimStart(more) == ""
  {
    if more != "" {
      AllSpaceTrims(more[1..]);
    }
  }

  lemma {:induction false} JoinLast(init: seq<string>, last: string, more: string)
    ensures Join(init + [last + more]) == Join(init + [last]) + more
  {
    if init == [] {
      assert [] + [last + more] == [last + more] && [] + [last] == [last];
    } else {
      JoinLast(init[1..], last, more);
      HeadTail(init);
      AppendAssoc([init[0]], init[1..], [last]);
      AppendAssoc([init[0]], init[1..], [last + more]);
      JoinCons(init[0], init[1..] + [last]);
      JoinCons(init[0], init[1..] + [last + more]);
      AppendAssoc(init[0] + " ", Join(init[1..] + [last]), more);
    }
  }

  /** The parse of the last part, kept apart. */
  lemma {:induction false} YieldSnoc(init: seq<string>, last: string)
    ensures RawKeys(init + [last]) == RawKeys(init) + (if KeyOf(last).Some? then [KeyOf(last).value] else [])
    ensures RawTexts(init + [last]) == RawTexts(init) + (if KeyOf(last).Some? then [] else [FreeTextSegment(last)])
  {
    RawKeysAppend(init, [last]);
    YieldCons(last, []);
    assert [last] + [] == [last];
  }

  /** Whether text, in front of separators, keeps its parse without them. */
  ghost predicate Closed(core: string) {
    || ModeAfter(core, CLEAN) == CLEAN
    || (RawsOf(core) != [] && KeyOf(RawsOf(core)[|RawsOf(core)| - 1]).None?)
  }

  lemma {:induction false} TrailingSurvives(core: string, tail: string)
    requires AllScanSpace(tail) && tail != ""
    ensures (Keys(Parsed(core).tokens) == Keys(Parsed(core + tail).tokens) && Parsed(core).freeText == Parsed(core + tail).freeText)
       <==> Closed(core)
  {
    if ModeAfter(core, CLEAN) == CLEAN {
      TrailingSpace(core, tail, 0);
    } else {
      var init, last, more := TrailingGlue(core, tail);
      ParsedIs(core);
      ParsedIs(core + tail);
      hide Parsed;
      hide RawsOf;
      hide KeyOf;
      hide Trim;
      hide ModeAfter;
      GluedSurvives(init, last, more);
      assert (init + [last])[|init|] == last;
    }
  }

  lemma {:induction false} GluedSurvives(init: seq<string>, last: string, more: string)
    requires last != "" && Through(last, CLEAN) != Some(CLEAN) && more != "" && AllScanSpace(more)
    ensures (RawKeys(init + [last]) == RawKeys(init + [last + more])
             && Trim(TextOf(init + [last])) == Trim(TextOf(init + [last + more])))
       <==> KeyOf(last).None?
  {
    hide KeyOf;
    hide FreeTextSegment;
    hide Trim;
    OpenPartGrows(last, more);
    YieldSnoc(init, last);
    YieldSnoc(init, last + more);
    JoinLast(RawTexts(init), last, more);
    TrimMore(TextOf(init + [last]), more);
    if KeyOf(last).Some? {
      LastDiffers(RawKeys(init), KeyOf(last).value, KeyOf(last + more).value);
    }
  }

  lemma {:induction false} LastDiffers(init: seq<Key>, a: Key, b: Key)
    requires a != b
    ensures init + [a] != init + [b]
  {
    assert (init + [a])[|init|] == a;
  }

  /**
   * When no token has the raw text, the edit is a trim. If what it trims are separators, tokens and free text are kept
   * exactly when there are none at the end, or the text before them ends outside quotes and escapes, or its last part
   * is no token.
   */
  lemma {:induction false} RemoveMissingSurvives(lead: string, core: string, tail: string)
    requires AllScanSpace(lead) && AllScanSpace(tail)
    requires Trim(lead + core + tail) == core
    ensures var input := lead + core + tail;
            && (Keys(Parsed(Trim(input)).tokens) == Keys(Parsed(input).tokens) && Parsed(Trim(input)).freeText == Parsed(input).freeText
                <==> tail == "" || Closed(core))
  {
    hide Parsed;
    hide Closed;
    hide Trim;
    AppendAssoc(lead, core, tail);
    LeadingSurvives(lead, core + tail);
    if tail == "" {
      assert core + tail == core;
    } else {
      TrailingSurvives(core, tail);
    }
  }

  lemma {:induction false} LeadingSurvives(lead: string, s: string)
    requires AllScanSpace(lead)
    ensures Keys(Parsed(lead + s).tokens) == Keys(Parsed(s).tokens) && Parsed(lead + s).freeText == Parsed(s).freeText
  {
    LeadingSpace(lead, s, 0);
    PartsShift(s, 0, |lead|);
    ParsedIs(lead + s);
    ParsedIs(s);
    hide Parsed;
    hide Trim;
  }

  lemma {:induction false} SingleToken(s: string, x: string)
    requires s == "a:" + x && Through(s, CLEAN).Some? && x != "" && x[0] == 'b'
    ensures Parsed(s).tokens == [Token("a", x, false, s, 0, |s|)]
  {
    SinglePart(s);
    assert Lower("a") == "a" && Sign(false) + "a" + ":" + x == s;
    HeadedToken("a", false, x, 0, |s|);
    TokensCons([Part(0, |s|, s)]);
    hide ParseToken;
  }

  /** An escaped separator at the end is trimmed away with its meaning: the token's value changes. */
  lemma {:induction false} RemoveMissingCanChange()
    ensures var input := "a:b\\ ";
            && Parsed(input).tokens == [Token("a", "b\\ ", false, input, 0, 5)]
            && Parsed(Trim(input)).tokens == [Token("a", "b\\", false, "a:b\\", 0, 4)]
  {
    hide Parsed;
    hide Trim;
    TrimmedExample();
    ParsedExample();
  }

  lemma {:induction false} QuotedExample()
    ensures var s := "\"a:b\"";
            GoodPart(s) && !OpenPart(s) && KeyOf(s).None? && FreeTextSegment(s) == "a:b"
  {
    var s := "\"a:b\"";
    var rest := "a:b\"";
    assert s == "\"" + rest && s[1..] == rest && rest == "a:b" + "\"";
    assert Escaped("a:b") == "a:b" by {
      assert "a:b"[1..] == ":b" && ":b"[1..] == "b" && "b"[1..] == "";
      assert Escaped("b") == "b" && Escaped(":b") == ":b";
    }
    EscapedIsRead("a:b", "\"");
    assert "\""[1..] == "";
    assert IndexOf(s, ':') == 2 by {
      assert s[2] == ':';
    }
    var field := Lower(s[..2]);
    assert field[0] == '"' && !LegalField(field);
  }

  lemma {:induction false} PlainExample(f: char, v: char)
    requires 'a' <= f <= 'z' && 'a' <= v <= 'z'
    ensures var s := [f] + ":" + [v];
            GoodPart(s) && !OpenPart(s) && KeyOf(s) == Some(Key([f], [v], false))
  {
    var s := [f] + ":" + [v];
    assert Lower([f]) == [f] && LegalLower([f]);
    BareRaw([f], false, [v]);
    assert Sign(false) + [f] + ":" + [v] == s;
    assert Unspaced(s);
    UnspacedThrough(s, false);
    NoBackslash(s);
    hide ParseToken;
  }

  /** Removing a token can turn quoted free text into one: its quotes are gone from the free text that is printed. */
  lemma {:induction false} RemoveCanCreateToken()
    ensures var input := "\"a:b\" c:d";
            && Keys(Parsed(input).tokens) == [Key("c", "d", false)] && Parsed(input).freeText == "a:b"
            && Keys(Parsed(BuildSearch([], "a:b")).tokens) == [Key("a", "b", false)]
  {
    hide Parsed;
    hide KeyOf;
    hide FreeTextSegment;
    hide GoodPart;
    hide OpenPart;
    hide RawsOf;
    hide BuildSearch;
    hide Trim;
    var quoted, other := "\"a:b\"", "c:d";
    QuotedExample();
    PlainExample('c', 'd');
    PlainExample('a', 'b');
    assert ['c'] + ":" + ['d'] == other && ['a'] + ":" + ['b'] == "a:b";
    TwoParts(quoted, other);
    assert quoted + " " + other == "\"a:b\" c:d";
    ParsedIs("\"a:b\" c:d");
    OnePart("a:b");
    ParsedIs("a:b");
    BuiltExample();
  }

  lemma {:induction false} BuiltExample()
    ensures Trim("a:b") == "a:b" && BuildSearch([], "a:b") == "a:b"
  {
    assert Trimmed("a:b");
    TrimFacts("a:b");
    assert FormatAll([]) + ["a:b"] == ["a:b"];
  }

  lemma {:induction false} TwoParts(a: string, b: string)
    requires GoodPart(a) && !OpenPart(a) && GoodPart(b)
    ensures RawsOf(a + " " + b) == [a, b]
    ensures RawKeys([a, b]) == (if KeyOf(a).Some? then [KeyOf(a).value] else []) + (if KeyOf(b).Some? then [KeyOf(b).value] else [])
    ensures RawTexts([a, b]) == (if KeyOf(a).Some? then [] else [FreeTextSegment(a)]) + (if KeyOf(b).Some? then [] else [FreeTextSegment(b)])
  {
    hide KeyOf;
    hide FreeTextSegment;
    hide OpenPart;
    hide Through;
    OnePart(a);
    OnePart(b);
    JoinedHead(a, b, 0);
    PartsShift(b, 0, |a| + 1);
    assert [a, b] == [a] + [b];
    YieldSnoc([a], b);
  }

  lemma {:induction false} OnePart(p: string)
    requires GoodPart(p)
    ensures RawsOf(p) == [p]
    ensures RawKeys([p]) == (if KeyOf(p).Some? then [KeyOf(p).value] else [])
    ensures RawTexts([p]) == (if KeyOf(p).Some? then [] else [FreeTextSegment(p)])
  {
    SinglePart(p);
    RawsCons(Part(0, |p|, p), []);
    ConsParts(Part(0, |p|, p), []);
    assert [Part(0, |p|, p)] + [] == [Part(0, |p|, p)];
    YieldSnoc([], p);
    assert [] + [p] == [p];
    hide KeyOf;
    hide FreeTextSegment;
  }

  lemma {:induction false} ParsedExample()
    ensures Parsed("a:b\\ ").tokens == [Token("a", "b\\ ", false, "a:b\\ ", 0, 5)]
    ensures Parsed("a:b\\").tokens == [Token("a", "b\\", false, "a:b\\", 0, 4)]
  {
    hide Parsed;
    assert "a:b\\ " == "a:" + "b\\ " && "a:b\\" == "a:" + "b\\";
    SingleToken("a:b\\ ", "b\\ ");
    SingleToken("a:b\\", "b\\");
  }

  lemma {:induction false} TrimmedExample()
    ensures Trim("a:b\\ ") == "a:b\\"
  {
    var input := "a:b\\ ";
    assert input[..4] == "a:b\\" && TrimStart(input) == input && TrimEnd(input) == "a:b\\";
  }
}
