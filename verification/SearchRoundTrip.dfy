/** Printing and re-parsing a search: exactly which tokens and free texts survive. */
module SearchRoundTrip {
  import opened Common
  import opened SearchParser
  import opened SearchScanning

  // ---- The round trip ----

  ghost predicate LegalTokens(tokens: seq<Token>) {
    forall i :: 0 <= i < |tokens| ==> LegalLower(tokens[i].field)
  }

  /** No bare value starts with slashes, and none leaves the escape open before another part. */
  ghost predicate SafeTokens(tokens: seq<Token>, textFollows: bool) {
    forall i :: 0 <= i < |tokens| ==>
      && !SlashValue(tokens[i].value)
      && (OpenValue(tokens[i].value) ==> i == |tokens| - 1 && !textFollows)
  }

  /** Free text that parses to itself and to no token. */
  predicate PlainText(text: string) {
    Parsed(text).tokens == [] && Parsed(text).freeText == text
  }

  ghost predicate SurvivesReparse(tokens: seq<Token>, freeText: string) {
    var again := Parsed(SerializeSearch(ParsedSearch(tokens, freeText)));
    Keys(again.tokens) == Keys(tokens) && again.freeText == freeText
  }

  /** The free text of a parse, before it is trimmed. */
  function TextOf(raws: seq<string>): string {
    Join(RawTexts(raws))
  }

  lemma {:induction false} ParsedIs(s: string)
    ensures Keys(Parsed(s).tokens) == RawKeys(RawsOf(s))
    ensures Parsed(s).freeText == Trim(TextOf(RawsOf(s)))
  {
    PartsYield(Parts(s, 0));
  }

  lemma {:induction false} FormatCons(tokens: seq<Token>)
    requires tokens != []
    ensures FormatAll(tokens) == [FormatToken(tokens[0].field, tokens[0].value, tokens[0].negated)] + FormatAll(tokens[1..])
  {
  }

  lemma {:induction false} FormatAllGood(tokens: seq<Token>)
    requires LegalTokens(tokens)
    ensures AllGood(FormatAll(tokens)) && |FormatAll(tokens)| == |tokens|
  {
    hide GoodPart;
    hide FormatToken;
    hide LegalLower;
    if tokens != [] {
      FormatAllGood(tokens[1..]);
      PrintedTokenScans(tokens[0].field, tokens[0].value, tokens[0].negated);
    }
  }

  lemma {:induction false} SafeTail(tokens: seq<Token>, textFollows: bool)
    requires tokens != []
    ensures SafeTokens(tokens, textFollows) <==>
            && !SlashValue(tokens[0].value)
            && (OpenValue(tokens[0].value) ==> |tokens| == 1 && !textFollows)
            && SafeTokens(tokens[1..], textFollows)
  {
    assert forall i :: 0 <= i < |tokens[1..]| ==> tokens[1..][i] == tokens[i + 1];
    assert forall i :: 1 <= i < |tokens| ==> tokens[i] == tokens[1..][i - 1];
  }

  lemma {:induction false} YieldCons(raw: string, raws: seq<string>)
    ensures RawKeys([raw] + raws) == (if KeyOf(raw).Some? then [KeyOf(raw).value] else []) + RawKeys(raws)
    ensures RawTexts([raw] + raws) == (if KeyOf(raw).Some? then [] else [FreeTextSegment(raw)]) + RawTexts(raws)
  {
    ConsParts(raw, raws);
  }

  lemma {:induction false} KeysCons(tokens: seq<Token>)
    requires tokens != []
    ensures Keys(tokens) == [Key(tokens[0].field, tokens[0].value, tokens[0].negated)] + Keys(tokens[1..])
  {
  }

  /** With safe values the printed parts stay as they are, and the text behind them parses as on its own. */
  lemma {:induction false} SafeRegroup(tokens: seq<Token>, behind: seq<string>)
    requires LegalTokens(tokens) && SafeTokens(tokens, behind != [])
    ensures RawKeys(Regroup(FormatAll(tokens), behind)) == Keys(tokens) + RawKeys(behind)
    ensures RawTexts(Regroup(FormatAll(tokens), behind)) == RawTexts(behind)
  {
    if tokens == [] {
      ConsAppend(Keys(tokens), RawKeys(behind));
    } else {
      hide FormatToken;
      hide ParseToken;
      hide OpenPart;
      var t := tokens[0];
      var first := FormatToken(t.field, t.value, t.negated);
      SafeTail(tokens, behind != []);
      SafeRegroup(tokens[1..], behind);
      PrintedTokenScans(t.field, t.value, t.negated);
      PrintedTokenParses(t.field, t.value, t.negated);
      FormatCons(tokens);
      RegroupCons(first, FormatAll(tokens[1..]), behind);
      YieldCons(first, Regroup(FormatAll(tokens[1..]), behind));
      KeysCons(tokens);
      AppendAssoc([Key(t.field, t.value, t.negated)], Keys(tokens[1..]), RawKeys(behind));
      ConsAppend([], RawTexts(behind));
    }
  }

  // ---- Printed groups that are no tokens ----

  /** Text that reads like a token whose value starts with slashes, whatever follows it. */
  ghost predicate SlashHead(g: string) {
    exists field: string, negated: bool, x: string ::
      LegalLower(field) && StartsWithSlashes(x) && g == Sign(negated) + field + ":" + x
  }

  /** Text that reads like a token with a bare value, whatever follows it. */
  ghost predicate TokenHead(g: string) {
    exists field: string, negated: bool, x: string ::
      LegalLower(field) && x != "" && x[0] != '"' && !StartsWithSlashes(x) && g == Sign(negated) + field + ":" + x
  }

  lemma {:induction false} SlashHeadStays(g: string, w: string)
    requires SlashHead(g)
    ensures SlashHead(g + w) && KeyOf(g + w).None? && FreeTextSegment(g + w) == g + w
    ensures KeyOf(g).None? && FreeTextSegment(g) == g && g != "" && !IsJsSpace(g[0])
  {
    var field: string, negated: bool, x: string :|
      LegalLower(field) && StartsWithSlashes(x) && g == Sign(negated) + field + ":" + x;
    AppendAssoc(Sign(negated) + field + ":", x, w);
    SlashRaw(field, negated, x + w);
    SlashRaw(field, negated, x);
  }

  lemma {:induction false} SlashRaw(field: string, negated: bool, x: string)
    requires LegalLower(field) && StartsWithSlashes(x)
    ensures var raw := Sign(negated) + field + ":" + x;
            SlashHead(raw) && KeyOf(raw).None? && FreeTextSegment(raw) == raw && raw != "" && !IsJsSpace(raw[0])
  {
    hide ParseToken;
    hide StartsWithSlashes;
    hide LegalLower;
    HeadedToken(field, negated, x, 0, 0);
    HeadedStart(field, negated, x);
    hide Sign;
  }

  lemma {:induction false} HeadedStart(field: string, negated: bool, x: string)
    requires LegalLower(field)
    ensures var raw := Sign(negated) + field + ":" + x; raw != "" && !IsJsSpace(raw[0]) && raw[0] != '"'
  {
    hide Lower;
    var raw := Sign(negated) + field + ":" + x;
    assert IsFieldStart(field[0]) && raw[0] == if negated then '-' else field[0];
  }

  lemma {:induction false} TokenHeadGlued(g: string, w: string)
    requires TokenHead(g)
    ensures TokenHead(g + " " + w) && KeyOf(g + " " + w).Some? && !SlashValue(KeyOf(g + " " + w).value.value)
    ensures KeyOf(g).Some?
  {
    hide LegalLower;
    hide ParseToken;
    hide IsJsSpace;
    hide Sign;
    var field: string, negated: bool, x: string :|
      LegalLower(field) && x != "" && x[0] != '"' && !StartsWithSlashes(x) && g == Sign(negated) + field + ":" + x;
    GlueTwice(Sign(negated) + field + ":", x, w);
    BareRaw(field, negated, x);
    BareRaw(field, negated, x + " " + w);
    AppendAssoc(Sign(negated) + field + ":", x, " ");
    AppendAssoc(Sign(negated) + field + ":", x + " ", w);
    AppendAssoc(Sign(negated) + field + ":", x, " " + w);
    Spaced(x, w);
  }

  lemma {:induction false} BareRaw(field: string, negated: bool, x: string)
    requires LegalLower(field) && x != "" && x[0] != '"' && !StartsWithSlashes(x)
    ensures var raw := Sign(negated) + field + ":" + x; TokenHead(raw) && KeyOf(raw) == Some(Key(field, x, negated))
  {
    hide LegalLower;
    hide ParseToken;
    hide Sign;
    HeadedToken(field, negated, x, 0, 0);
  }

  lemma {:induction false} Spaced(x: string, w: string)
    ensures NeedsQuotes(x + " " + w)
  {
    assert (x + " " + w)[|x|] == ' ';
  }

  /** A group that parses to a token without a slash value, and goes on doing so when it swallows more. */
  ghost predicate Tokenish(g: string) {
    && KeyOf(g).Some? && !SlashValue(KeyOf(g).value.value)
    && (OpenPart(g) ==> TokenHead(g))
  }

  /** Groups of printed parts: only the last may have its escape open. */
  ghost predicate Grouped(ps: seq<string>) {
    forall i :: 0 <= i < |ps| ==>
      && GoodPart(ps[i]) && (SlashHead(ps[i]) || Tokenish(ps[i]))
      && (i < |ps| - 1 ==> !OpenPart(ps[i]))
  }

  lemma {:induction false} PrintedKind(field: string, value: string, negated: bool)
    requires LegalLower(field)
    ensures var g := FormatToken(field, value, negated);
            && GoodPart(g)
            && (if SlashValue(value) then SlashHead(g) else Tokenish(g))
            && (OpenPart(g) && !SlashValue(value) ==> TokenHead(g))
  {
    hide LegalLower;
    PrintedTokenScans(field, value, negated);
    PrintedTokenParses(field, value, negated);
    assert Sign(negated) + field + ":" + SerializeValue(value) == FormatToken(field, value, negated);
    hide GoodPart;
    hide OpenPart;
    hide ParseToken;
    hide FormatToken;
    hide Sign;
    if OpenValue(value) && !SlashValue(value) {
      assert value != "" && value[0] != '"';
    }
  }

  lemma {:induction false} GluedScans(p: string, g: string)
    requires GoodPart(p) && OpenPart(p) && GoodPart(g)
    ensures GoodPart(p + " " + g) && (OpenPart(p + " " + g) <==> OpenPart(g))
  {
    AppendAssoc(p, " ", g);
    ThroughAppend(p, " " + g, CLEAN);
    ConsParts(' ', g);
  }

  lemma {:induction false} GroupedTail(ps: seq<string>)
    requires Grouped(ps) && ps != []
    ensures Grouped(ps[1..])
  {
    assert forall i :: 0 <= i < |ps[1..]| ==> ps[1..][i] == ps[i + 1];
  }

  lemma {:induction false} GroupedCons(g: string, rest: seq<string>)
    requires Grouped(rest) && GoodPart(g) && (SlashHead(g) || Tokenish(g)) && (rest != [] ==> !OpenPart(g))
    ensures Grouped([g] + rest)
  {
    var all := [g] + rest;
    assert forall i :: 1 <= i < |all| ==> all[i] == rest[i - 1];
  }

  /** Printed tokens as groups: grouping changes neither the text nor what the scanner makes of it. */
  lemma {:induction false} PrintedGroups(tokens: seq<Token>, behind: seq<string>)
    requires LegalTokens(tokens)
    ensures var f := FormatAll(tokens);
            var ps := Regroup(f, []);
            && Grouped(ps) && (ps == [] <==> tokens == [])
            && Regroup(f, behind) == Regroup(ps, behind)
  {
    if tokens != [] {
      hide FormatToken;
      hide GoodPart;
      hide OpenPart;
      hide SlashHead;
      hide Tokenish;
      hide TokenHead;
      hide LegalLower;
      hide SlashValue;
      var t := tokens[0];
      var first, rest := FormatToken(t.field, t.value, t.negated), FormatAll(tokens[1..]);
      PrintedGroups(tokens[1..], behind);
      PrintedKind(t.field, t.value, t.negated);
      FormatCons(tokens);
      RegroupCons(first, rest, []);
      RegroupCons(first, rest, behind);
      var groups := Regroup(rest, []);
      if OpenPart(first) && groups != [] {
        GluedGroup(t, first, groups, behind);
      } else {
        GroupedCons(first, groups);
        RegroupCons(first, groups, behind);
      }
    }
  }

  lemma {:induction false} GluedGroup(t: Token, first: string, groups: seq<string>, behind: seq<string>)
    requires LegalLower(t.field) && first == FormatToken(t.field, t.value, t.negated)
    requires OpenPart(first) && Grouped(groups) && groups != []
    ensures var ps := [first + " " + groups[0]] + groups[1..];
            && Grouped(ps)
            && Regroup(ps, behind) == Regroup([first] + groups, behind)
  {
    var glued, rest := first + " " + groups[0], groups[1..];
    PrintedKind(t.field, t.value, t.negated);
    GluedScans(first, groups[0]);
    GroupedTail(groups);
    HeadTail(groups);
    assert rest != [] ==> !OpenPart(groups[0]);
    if SlashHead(first) {
      AppendAssoc(first, " ", groups[0]);
      SlashHeadStays(first, " " + groups[0]);
    } else {
      TokenHeadGlued(first, groups[0]);
    }
    hide SlashHead;
    hide TokenHead;
    hide FormatToken;
    hide SlashValue;
    GroupedCons(glued, rest);
    hide Grouped;
    hide GoodPart;
    hide OpenPart;
    hide KeyOf;
    RegroupCons(glued, rest, behind);
    RegroupCons(groups[0], rest, behind);
    RegroupCons(first, groups, behind);
    var more := Regroup(rest, behind);
    if more != [] && OpenPart(groups[0]) {
      GlueTwice(first, groups[0], more[0]);
      ConsParts(groups[0] + " " + more[0], more[1..]);
    } else {
      ConsParts(groups[0], more);
    }
  }

  lemma {:induction false} GlueTwice(a: string, b: string, c: string)
    ensures (a + " " + b) + " " + c == a + " " + (b + " " + c)
  {
  }

  /** No group is a token. */
  ghost predicate Slashed(ps: seq<string>) {
    Grouped(ps) && forall i :: 0 <= i < |ps| ==> SlashHead(ps[i])
  }

  /** Either no printed group is a token, or the first token does not have a bare value that starts with slashes. */
  lemma {:induction false} GroupsKeys(ps: seq<string>, behind: seq<string>)
    requires Grouped(ps)
    ensures var keys := RawKeys(Regroup(ps, behind));
            Slashed(ps) || (keys != [] && !SlashValue(keys[0].value))
  {
    if ps != [] {
      hide GoodPart;
      hide OpenPart;
      hide TokenHead;
      hide KeyOf;
      hide SlashValue;
      var g, rest := ps[0], ps[1..];
      HeadTail(ps);
      GroupedTail(ps);
      RegroupCons(g, rest, behind);
      var more := Regroup(rest, behind);
      YieldCons(g, more);
      if SlashHead(g) {
        SlashHeadStays(g, "");
        hide SlashHead;
        assert forall i :: 1 <= i < |ps| ==> ps[i] == rest[i - 1];
        if rest != [] {
          GroupsKeys(rest, behind);
        }
      } else {
        hide SlashHead;
        assert Tokenish(g);
        if more != [] && OpenPart(g) {
          TokenHeadGlued(g, more[0]);
          YieldCons(g + " " + more[0], more[1..]);
        }
      }
    }
  }

  lemma {:induction false} SlashedKeys(ps: seq<string>)
    requires Slashed(ps)
    ensures RawKeys(Regroup(ps, [])) == []
  {
    if ps != [] {
      hide GoodPart;
      hide OpenPart;
      hide KeyOf;
      hide Tokenish;
      SlashedTail(ps);
      SlashHeadStays(ps[0], "");
      hide SlashHead;
      SlashedKeys(ps[1..]);
      HeadTail(ps);
      RegroupCons(ps[0], ps[1..], []);
      YieldCons(ps[0], Regroup(ps[1..], []));
      assert ps[1..] == [] ==> Regroup(ps[1..], []) == [];
    }
  }

  lemma {:induction false} SlashedTail(ps: seq<string>)
    requires Slashed(ps) && ps != []
    ensures Slashed(ps[1..]) && SlashHead(ps[0]) && (ps[1..] != [] ==> !OpenPart(ps[0])) && GoodPart(ps[0])
  {
    GroupedTail(ps);
    assert forall i :: 0 <= i < |ps[1..]| ==> ps[1..][i] == ps[i + 1];
  }

  // ---- Trimming ----

  predicate Trimmed(s: string) {
    s == "" || (!IsJsSpace(s[0]) && !IsJsSpace(s[|s| - 1]))
  }

  lemma {:induction false} TrimEndFacts(s: string)
    ensures TrimEnd(s) <= s && (TrimEnd(s) == "" || !IsJsSpace(TrimEnd(s)[|TrimEnd(s)| - 1]))
  {
    if s != "" && IsJsSpace(s[|s| - 1]) {
      TrimEndFacts(s[..|s| - 1]);
    }
  }

  lemma {:induction false} TrimStartFacts(s: string)
    ensures TrimStart(s) == "" || !IsJsSpace(TrimStart(s)[0])
  {
    if s != "" && IsJsSpace(s[0]) {
      TrimStartFacts(s[1..]);
    }
  }

  lemma {:induction false} TrimFacts(s: string)
    ensures Trimmed(Trim(s))
    ensures Trimmed(s) ==> Trim(s) == s
    ensures s != "" && !IsJsSpace(s[0]) ==> Trim(s) == TrimEnd(s)
  {
    TrimStartFacts(s);
    TrimEndFacts(TrimStart(s));
  }

  /** Trimming the end stops at the last character that is no space. */
  lemma {:induction false} TrimEndAppend(a: string, b: string)
    requires b != "" && !IsJsSpace(b[0])
    ensures TrimEnd(a + b) == a + TrimEnd(b) && TrimEnd(b) != "" && TrimEnd(b)[0] == b[0]
  {
    var last := |b| - 1;
    if IsJsSpace(b[last]) {
      assert (a + b)[..|a + b| - 1] == a + b[..last];
      TrimEndAppend(a, b[..last]);
    }
  }

  lemma {:induction false} TrimKeepsPrefix(core: string, s: string)
    requires core != "" && core <= s && !IsJsSpace(core[0]) && !IsJsSpace(core[|core| - 1])
    ensures core <= TrimEnd(s)
  {
    var last := |core| - 1;
    assert s == s[..last] + s[last..];
    TrimEndAppend(s[..last], s[last..]);
  }

  // ---- Text cannot repeat printed text that is no token ----

  lemma {:induction false} JoinGlue(a: string, b: string, rest: seq<string>)
    ensures Join([a + " " + b] + rest) == a + " " + Join([b] + rest)
  {
    JoinCons(a + " " + b, rest);
    JoinCons(b, rest);
    if rest != [] {
      GlueTwice(a, b, Join(rest));
    }
  }

  /** Printed text without a token, in front of text that starts with none either, comes out as it stands. */
  lemma {:induction false} EchoText(ps: seq<string>, behind: seq<string>)
    requires Slashed(ps) && ps != [] && behind != []
    requires KeyOf(behind[0]).None? && FreeTextSegment(behind[0]) == behind[0]
    ensures TextOf(Regroup(ps, behind)) == Join(ps) + " " + TextOf(behind)
  {
    hide GoodPart;
    hide KeyOf;
    hide OpenPart;
    hide FreeTextSegment;
    hide Tokenish;
    var g, rest := ps[0], ps[1..];
    SlashedTail(ps);
    HeadTail(ps);
    HeadTail(behind);
    RegroupCons(g, rest, behind);
    YieldCons(behind[0], behind[1..]);
    JoinCons(g, rest);
    SlashHeadStays(g, "");
    var more := Regroup(rest, behind);
    YieldCons(g, more);
    JoinCons(g, RawTexts(more));
    if rest != [] {
      EchoText(rest, behind);
      assert RawTexts(more) != [] by {
        assert TextOf(more) != "";
      }
      GlueTwice(g, Join(rest), TextOf(behind));
    } else if OpenPart(g) {
      var glued := g + " " + behind[0];
      AppendAssoc(g, " ", behind[0]);
      SlashHeadStays(g, " " + behind[0]);
      YieldCons(glued, behind[1..]);
      JoinGlue(g, behind[0], RawTexts(behind[1..]));
    }
    hide SlashHead;
  }

  lemma {:induction false} TextStarts(ps: seq<string>, behind: seq<string>)
    requires Slashed(ps) && ps != []
    ensures ps[0] <= TextOf(Regroup(ps, behind))
  {
    hide GoodPart;
    hide KeyOf;
    hide OpenPart;
    hide FreeTextSegment;
    hide Tokenish;
    var g, rest := ps[0], ps[1..];
    SlashedTail(ps);
    HeadTail(ps);
    RegroupCons(g, rest, behind);
    SlashHeadStays(g, "");
    var more := Regroup(rest, behind);
    YieldCons(g, more);
    JoinCons(g, RawTexts(more));
    if more != [] && OpenPart(g) {
      AppendAssoc(g, " ", more[0]);
      SlashHeadStays(g, " " + more[0]);
      YieldCons(g + " " + more[0], more[1..]);
      JoinGlue(g, more[0], RawTexts(more[1..]));
    }
  }

  /** The shortest start that still reads like a token with a slash value. */
  lemma {:induction false} SlashCore(g: string) returns (core: string)
    requires SlashHead(g)
    ensures core <= g && SlashHead(core) && core != "" && !IsJsSpace(core[0]) && !IsJsSpace(core[|core| - 1])
    ensures Through(core, CLEAN).Some?
  {
    var field: string, negated: bool, x: string :|
      LegalLower(field) && StartsWithSlashes(x) && g == Sign(negated) + field + ":" + x;
    var head := Sign(negated) + field + ":";
    core := head + "//";
    HeadAndRest(x, 2);
    assert x[..2] == "//";
    AppendAssoc(head, "//", x[2..]);
    SlashRaw(field, negated, "//");
    HeadUnspaced(field, negated);
    hide LegalLower;
    hide Sign;
    hide SlashHead;
    assert Unspaced(core);
    UnspacedThrough(core, false);
  }

  lemma {:induction false} HeadUnspaced(field: string, negated: bool)
    requires LegalLower(field)
    ensures Unspaced(Sign(negated) + field + ":")
  {
    hide Lower;
    assert forall i :: 0 <= i < |field| ==> IsFieldChar(field[i]);
  }

  lemma {:induction false} FirstRaw(t: string, core: string)
    requires core != "" && core <= t && !IsScanSpace(core[0]) && Through(core, CLEAN).Some?
    ensures RawsOf(t) != [] && core <= RawsOf(t)[0]
  {
    HeadAndRest(t, |core|);
    assert t[..|core|] == core;
    ThroughAppend(core, t[|core|..], CLEAN);
    var n := ScanLength(t, false, false);
    HeadAndRest(t, n);
    FirstPart(t, 0, n, t[..n], t[n..]);
    RawsCons(Part(0, n, t[..n]), Parts(t[n..], n));
    assert t[..n][..|core|] == core;
  }

  lemma {:induction false} JoinText(ps: seq<string>, text: string)
    requires ps != [] && text != ""
    ensures Join(ps + [text]) == Join(ps) + " " + text
  {
    HeadTail(ps);
    AppendAssoc([ps[0]], ps[1..], [text]);
    JoinCons(ps[0], ps[1..] + [text]);
    JoinCons(ps[0], ps[1..]);
    if ps[1..] != [] {
      JoinText(ps[1..], text);
      GlueTwice(ps[0], Join(ps[1..]), text);
    } else {
      assert [] + [text] == [text];
    }
  }

  /** Text is never what comes out as free text when printed text without a token is put in front of it. */
  lemma {:induction false} NoEcho(ps: seq<string>, t: string)
    requires Slashed(ps) && ps != [] && t != ""
    ensures t != Trim(TextOf(Regroup(ps, RawsOf(t))))
    decreases |t|
  {
    hide GoodPart;
    hide KeyOf;
    hide OpenPart;
    hide FreeTextSegment;
    hide SlashHead;
    hide RawsOf;
    hide Regroup;
    hide RawTexts;
    var behind := RawsOf(t);
    var whole := TextOf(Regroup(ps, behind));
    if t == Trim(whole) {
      TextStarts(ps, behind);
      SlashedTail(ps);
      var core := SlashCore(ps[0]);
      TrimFacts(whole);
      TrimKeepsPrefix(core, whole);
      var text := EchoRest(core, t);
      EchoText(ps, behind);
      TrimEndAppend(Join(ps) + " ", text);
      var y := TrimEnd(text);
      TrimFacts(text);
      SlashedGood(ps);
      PartsOfPrinted(ps, y);
      JoinText(ps, y);
      NoEcho(ps, y);
    }
  }

  lemma {:induction false} SlashedGood(ps: seq<string>)
    requires Slashed(ps)
    ensures AllGood(ps)
  {
  }

  /** Text that starts like a slash token starts its own free text. */
  lemma {:induction false} EchoRest(core: string, t: string) returns (text: string)
    requires SlashHead(core) && core <= t && core != "" && !IsJsSpace(core[0]) && Through(core, CLEAN).Some?
    ensures var behind := RawsOf(t);
            && behind != [] && KeyOf(behind[0]).None? && FreeTextSegment(behind[0]) == behind[0]
            && text == TextOf(behind) && text != "" && !IsJsSpace(text[0])
  {
    hide KeyOf;
    hide FreeTextSegment;
    hide SlashHead;
    hide RawsOf;
    FirstRaw(t, core);
    var behind := RawsOf(t);
    var w := behind[0][|core|..];
    HeadAndRest(behind[0], |core|);
    assert behind[0][..|core|] == core;
    SlashHeadStays(core, w);
    HeadTail(behind);
    YieldCons(behind[0], behind[1..]);
    JoinCons(behind[0], RawTexts(behind[1..]));
    text := TextOf(behind);
    assert text[0] == behind[0][0] == core[0];
  }

  // ---- The condition ----

  /** One unsafe value changes the parsed tokens or the free text, whatever text follows. */
  lemma {:induction false} UnsafeFails(tokens: seq<Token>, text: string)
    requires LegalTokens(tokens) && Trimmed(text) && !SafeTokens(tokens, text != "")
    ensures var raws := Regroup(FormatAll(tokens), RawsOf(text));
            RawKeys(raws) != Keys(tokens) || Trim(TextOf(raws)) != text
  {
    hide FormatToken;
    hide ParseToken;
    hide OpenPart;
    hide GoodPart;
    hide SlashHead;
    hide Tokenish;
    hide TokenHead;
    hide LegalLower;
    hide SlashValue;
    hide OpenValue;
    hide RawsOf;
    hide Trim;
    var t := tokens[0];
    var first, rest, behind := FormatToken(t.field, t.value, t.negated), FormatAll(tokens[1..]), RawsOf(text);
    NoText(text);
    FormatCons(tokens);
    RegroupCons(first, rest, behind);
    KeysCons(tokens);
    PrintedTokenScans(t.field, t.value, t.negated);
    PrintedTokenParses(t.field, t.value, t.negated);
    SafeTail(tokens, text != "");
    FormatAllGood(tokens[1..]);
    var more := Regroup(rest, behind);
    if SlashValue(t.value) {
      SlashFirstFails(tokens, text);
    } else if OpenValue(t.value) && more != [] {
      PrintedKind(t.field, t.value, t.negated);
      TokenHeadGlued(first, more[0]);
      GluedKeyDiffers(t, more[0]);
      YieldCons(first + " " + more[0], more[1..]);
    } else {
      assert more == [] ==> rest == [] && behind == [];
      UnsafeFails(tokens[1..], text);
      YieldCons(first, more);
      ConsParts(Key(t.field, t.value, t.negated), RawKeys(more));
      ConsParts(Key(t.field, t.value, t.negated), Keys(tokens[1..]));
      ConsAppend([], RawTexts(more));
    }
  }

  lemma {:induction false} NoText(text: string)
    requires Trimmed(text)
    ensures RawsOf(text) == [] <==> text == ""
  {
    if text != "" {
      var n := ScanLength(text, false, false);
      HeadAndRest(text, n);
      FirstPart(text, 0, n, text[..n], text[n..]);
    }
  }

  lemma {:induction false} SlashFirstFails(tokens: seq<Token>, text: string)
    requires LegalTokens(tokens) && Trimmed(text) && tokens != [] && SlashValue(tokens[0].value)
    ensures var raws := Regroup(FormatAll(tokens), RawsOf(text));
            RawKeys(raws) != Keys(tokens) || Trim(TextOf(raws)) != text
  {
    hide Grouped;
    hide SlashHead;
    hide SlashValue;
    hide RawsOf;
    hide Regroup;
    hide KeyOf;
    var behind := RawsOf(text);
    NoText(text);
    PrintedGroups(tokens, behind);
    var groups := Regroup(FormatAll(tokens), []);
    GroupsKeys(groups, behind);
    if Slashed(groups) {
      if text == "" {
        SlashedKeys(groups);
      } else {
        NoEcho(groups, text);
      }
    }
  }

  /** A value glued to the next part is not the printed value. */
  lemma {:induction false} GluedKeyDiffers(t: Token, next: string)
    requires LegalLower(t.field) && OpenValue(t.value)
    ensures KeyOf(FormatToken(t.field, t.value, t.negated) + " " + next) != Some(Key(t.field, t.value, t.negated))
  {
    var value := t.value + " " + next;
    AppendAssoc(Sign(t.negated) + t.field + ":", t.value, " " + next);
    AppendAssoc(t.value, " ", next);
    AppendAssoc(FormatToken(t.field, t.value, t.negated), " ", next);
    HeadedToken(t.field, t.negated, value, 0, 0);
    assert |value| > |t.value|;
  }

  lemma {:induction false} PrintedRaws(tokens: seq<Token>, freeText: string)
    requires LegalTokens(tokens)
    ensures RawsOf(BuildSearch(tokens, freeText)) == Regroup(FormatAll(tokens), RawsOf(Trim(freeText)))
    ensures Trimmed(Trim(freeText))
  {
    FormatAllGood(tokens);
    TrimFacts(freeText);
    PartsOfPrinted(FormatAll(tokens), Trim(freeText));
  }

  /** With safe values, re-parsing gives the printed tokens and then whatever the free text parses to. */
  lemma {:induction false} SafePrint(tokens: seq<Token>, freeText: string)
    requires LegalTokens(tokens) && SafeTokens(tokens, Trim(freeText) != "")
    ensures var again := Parsed(BuildSearch(tokens, freeText));
            && Keys(again.tokens) == Keys(tokens) + Keys(Parsed(Trim(freeText)).tokens)
            && again.freeText == Parsed(Trim(freeText)).freeText
  {
    PrintedRaws(tokens, freeText);
    NoText(Trim(freeText));
    SafeRegroup(tokens, RawsOf(Trim(freeText)));
    ParsedIs(BuildSearch(tokens, freeText));
    ParsedIs(Trim(freeText));
    hide Parsed;
    hide Regroup;
    hide RawsOf;
    hide Trim;
  }

  /**
   * Printing and re-parsing gives back the same tokens and free text exactly when every value is safe and the free
   * text itself parses to itself and to no token.
   */
  lemma {:induction false} RoundTrip(tokens: seq<Token>, freeText: string)
    requires LegalTokens(tokens)
    ensures SurvivesReparse(tokens, freeText) <==> SafeTokens(tokens, freeText != "") && PlainText(freeText)
  {
    var printed, text := BuildSearch(tokens, freeText), Trim(freeText);
    PrintedRaws(tokens, freeText);
    ParsedIs(printed);
    ParsedIs(freeText);
    TrimFacts(TextOf(RawsOf(printed)));
    TrimFacts(TextOf(RawsOf(freeText)));
    TrimFacts(freeText);
    if text == freeText {
      if SafeTokens(tokens, text != "") {
        SafePrint(tokens, freeText);
        ExtraKeys(Keys(tokens), Keys(Parsed(text).tokens));
      } else {
        UnsafeFails(tokens, text);
      }
    }
    hide Parsed;
    hide BuildSearch;
    hide Regroup;
    hide RawsOf;
    hide Trim;
  }

  lemma {:induction false} ExtraKeys(a: seq<Key>, b: seq<Key>)
    ensures a + b == a <==> b == []
  {
    if b != [] {
      assert |a + b| > |a|;
    }
  }

  // ---- Free text as words ----

  /** A word of free text that the parser leaves alone. */
  predicate PlainWord(w: string) {
    w != "" && Unspaced(w) && (forall i :: 0 <= i < |w| ==> w[i] != '\\') && ParseToken(w, 0, 0).None?
  }

  ghost predicate PlainWords(words: seq<string>) {
    forall i :: 0 <= i < |words| ==> PlainWord(words[i])
  }

  lemma {:induction false} WordsYield(words: seq<string>)
    requires PlainWords(words)
    ensures AllGood(words) && Regroup(words, []) == words && RawKeys(words) == [] && RawTexts(words) == words
  {
    if words != [] {
      UnspacedThrough(words[0], false);
      NoBackslash(words[0]);
      WordsYield(words[1..]);
      HeadTail(words);
      assert forall i :: 0 < i < |words| ==> words[i] == words[1..][i - 1];
    }
  }

  lemma {:induction false} JoinTrimmed(words: seq<string>)
    requires PlainWords(words)
    ensures Trimmed(Join(words)) && (Join(words) == "" <==> words == [])
  {
    if |words| > 1 {
      JoinTrimmed(words[1..]);
      var whole, rest := Join(words), Join(words[1..]);
      assert whole[0] == words[0][0] && whole[|whole| - 1] == rest[|rest| - 1];
    }
  }

  /** Single-spaced words without quotes or backslashes that are no tokens make plain free text. */
  lemma {:induction false} WordsArePlain(words: seq<string>)
    requires PlainWords(words)
    ensures PlainText(Join(words))
  {
    WordsYield(words);
    JoinTrimmed(words);
    TrimFacts(Join(words));
    PartsOfPrinted(words, "");
    TakeAll(words);
    assert words + TextPart("") == words && RawsOf("") == [];
    ParsedIs(Join(words));
  }

  // ---- Plain text, told from its parts ----

  /** A part that is read as free text and taken as it stands. */
  predicate Verbatim(raw: string) {
    KeyOf(raw).None? && QuotedValue(raw).None?
  }

  /** The length of the strings with one separator behind each. */
  function Size(ss: seq<string>): nat {
    if ss == [] then 0 else |ss[0]| + 1 + Size(ss[1..])
  }

  lemma {:induction false} JoinSize(ss: seq<string>)
    ensures ss != [] ==> |Join(ss)| + 1 == Size(ss)
  {
    if |ss| > 1 {
      JoinSize(ss[1..]);
    }
  }

  lemma {:induction false} ScanStops(s: string, inQuotes: bool, escaped: bool)
    ensures var n := ScanLength(s, inQuotes, escaped); n < |s| ==> IsScanSpace(s[n])
  {
    if s != "" {
      ScanStops(s[1..], inQuotes, false);
      ScanStops(s[1..], inQuotes, true);
      ScanStops(s[1..], !inQuotes, false);
    }
  }

  /** A separator stands between any two parts. */
  lemma {:induction false} PartsSize(s: string, base: nat)
    ensures Size(Raws(Parts(s, base))) <= |s| + 1
    ensures s == "" || IsScanSpace(s[0]) ==> Size(Raws(Parts(s, base))) <= |s|
    decreases |s|
  {
    PartsSkip(s, base);
    if s == "" {
    } else if IsScanSpace(s[0]) {
      PartsSize(s[1..], base + 1);
    } else {
      var n := ScanLength(s, false, false);
      ScanStops(s, false, false);
      HeadAndRest(s, n);
      FirstPart(s, base, n, s[..n], s[n..]);
      PartsSize(s[n..], base + n);
      RawsCons(Part(base, base + n, s[..n]), Parts(s[n..], base + n));
    }
  }

  /** Taking the quotes off makes a text shorter. */
  lemma {:induction false} UnquoteShortens(rest: string, escaped: bool)
    ensures Unquote(rest, escaped).Some? ==> |Unquote(rest, escaped).value| < |rest|
  {
    if rest != "" {
      UnquoteShortens(rest[1..], false);
      UnquoteShortens(rest[1..], true);
    }
  }

  /** Without a token the texts are at most as long as the parts, and as long only if they are the parts. */
  lemma {:induction false} TextsSize(raws: seq<string>)
    requires RawKeys(raws) == []
    ensures Size(RawTexts(raws)) <= Size(raws)
    ensures Size(RawTexts(raws)) == Size(raws) ==> forall i :: 0 <= i < |raws| ==> Verbatim(raws[i])
  {
    if raws != [] {
      var first := raws[0];
      assert KeyOf(first).None?;
      TextsSize(raws[1..]);
      HeadTail(raws);
      YieldCons(first, raws[1..]);
      ConsParts(FreeTextSegment(first), RawTexts(raws[1..]));
      if first != "" && first[0] == '"' {
        UnquoteShortens(first[1..], false);
      }
      assert forall i :: 0 < i < |raws| ==> raws[i] == raws[1..][i - 1];
    }
  }

  lemma {:induction false} VerbatimYield(raws: seq<string>)
    requires forall i :: 0 <= i < |raws| ==> Verbatim(raws[i])
    ensures RawKeys(raws) == [] && RawTexts(raws) == raws
  {
    if raws != [] {
      VerbatimYield(raws[1..]);
      HeadTail(raws);
      assert Verbatim(raws[0]);
    }
  }

  lemma {:induction false} TrimStartShortens(s: string)
    ensures |TrimStart(s)| <= |s| && (|TrimStart(s)| == |s| ==> TrimStart(s) == s)
  {
    if s != "" && IsJsSpace(s[0]) {
      TrimStartShortens(s[1..]);
    }
  }

  lemma {:induction false} TrimShortens(s: string)
    ensures |Trim(s)| <= |s| && (|Trim(s)| == |s| ==> Trim(s) == s)
  {
    TrimStartShortens(s);
    TrimEndFacts(TrimStart(s));
  }

  /**
   * Free text parses to itself and to no token exactly when no white space surrounds it, single spaces separate the
   * scanner's parts, and none of these is a token or a quoted value.
   */
  lemma {:induction false} PlainTextIff(t: string)
    ensures PlainText(t) <==>
              && Trimmed(t)
              && t == Join(RawsOf(t))
              && forall i :: 0 <= i < |RawsOf(t)| ==> Verbatim(RawsOf(t)[i])
  {
    var raws := RawsOf(t);
    ParsedIs(t);
    TrimFacts(t);
    if forall i :: 0 <= i < |raws| ==> Verbatim(raws[i]) {
      VerbatimYield(raws);
    }
    if PlainText(t) {
      PartsSize(t, 0);
      TextsSize(raws);
      JoinSize(raws);
      JoinSize(RawTexts(raws));
      TrimShortens(TextOf(raws));
      TrimFacts(TextOf(raws));
      if raws != [] {
        VerbatimYield(raws);
      }
    }
  }
}
