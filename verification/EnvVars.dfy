/** Expansion of `$VAR` and `${VAR}` references in config strings. */
module EnvVars {
  import opened Common

  type Env = map<string, string>

  /** The pieces a string is read as; a braced reference may run to the end of the string without closing. */
  datatype Piece = Literal(c: char) | Bare(name: string) | Braced(name: string, closed: bool)

  predicate IsNameChar(c: char) {
    'a' <= c <= 'z' || 'A' <= c <= 'Z' || '0' <= c <= '9' || c == '_'
  }

  function Text(p: Piece): string {
    match p
    case Literal(c) => [c]
    case Bare(name) => "$" + name
    case Braced(name, closed) => "${" + name + (if closed then "}" else "")
  }

  /** A defined reference becomes its value; everything else stays as written. */
  function Image(p: Piece, env: Env): string {
    if !p.Literal? && p.name in env then env[p.name] else Text(p)
  }

  function Texts(ps: seq<Piece>): string {
    if ps == [] then "" else Text(ps[0]) + Texts(ps[1..])
  }

  function Images(ps: seq<Piece>, env: Env): string {
    if ps == [] then "" else Image(ps[0], env) + Images(ps[1..], env)
  }

  /** The length of the longest prefix of name characters. */
  function NameLength(s: string): (n: nat)
    ensures n <= |s|
  {
    if s != "" && IsNameChar(s[0]) then 1 + NameLength(s[1..]) else 0
  }

  lemma {:induction false} NameLengthIsMaximal(s: string)
    ensures forall i :: 0 <= i < NameLength(s) ==> IsNameChar(s[i])
    ensures NameLength(s) < |s| ==> !IsNameChar(s[NameLength(s)])
  {
    if s != "" && IsNameChar(s[0]) {
      NameLengthIsMaximal(s[1..]);
    }
  }

  /** The position of the closing brace, or the length. */
  function BraceAt(s: string): (n: nat)
    ensures n <= |s| && (n < |s| ==> s[n] == '}')
  {
    if s == "" || s[0] == '}' then 0 else 1 + BraceAt(s[1..])
  }

  lemma {:induction false} BraceAtIsFirst(s: string)
    ensures forall i :: 0 <= i < BraceAt(s) ==> s[i] != '}'
    ensures BraceAt(s) < |s| ==> s[BraceAt(s)] == '}'
  {
    if s != "" && s[0] != '}' {
      BraceAtIsFirst(s[1..]);
    }
  }

  /** The first piece of a non-empty string. */
  function First(s: string): (p: Piece)
    requires s != ""
    ensures 0 < |Text(p)| <= |s|
  {
    if s[0] != '$' then Literal(s[0])
    else if |s| > 1 && s[1] == '{' then
      var n := BraceAt(s[2..]);
      Braced(s[2..2 + n], 2 + n < |s|)
    else
      var n := NameLength(s[1..]);
      if n == 0 then Literal('$') else Bare(s[1..1 + n])
  }

  /** The first piece is spelled by the start of the string. */
  lemma {:induction false} FirstIsPrefix(s: string)
    requires s != ""
    ensures Text(First(s)) == s[..|Text(First(s))|]
  {
    hide NameLength;
    hide BraceAt;
    if s[0] != '$' {
      assert s[..1] == [s[0]];
    } else if |s| > 1 && s[1] == '{' {
      var n := BraceAt(s[2..]);
      assert n < |s[2..]| ==> s[2 + n] == s[2..][n];
      BracedText(s, n);
    } else {
      var n := NameLength(s[1..]);
      assert s[..1 + n] == [s[0]] + s[1..1 + n];
    }
  }

  lemma {:induction false} BracedText(s: string, n: nat)
    requires 2 + n <= |s| && s[0] == '$' && s[1] == '{' && (2 + n < |s| ==> s[2 + n] == '}')
    ensures var text := "${" + s[2..2 + n] + (if 2 + n < |s| then "}" else ""); text == s[..|text|]
  {
  }

  /** Behind a dollar without a brace stands a name: all the letters, digits and underscores that follow, or none. */
  lemma {:induction false} BareMeans(s: string)
    requires s != "" && s[0] == '$' && (|s| == 1 || s[1] != '{')
    ensures First(s).Bare? || First(s) == Literal('$')
    ensures var n := |Text(First(s))|;
            && (forall i :: 1 <= i < n ==> s[i] == '_' || '0' <= s[i] <= '9' || 'a' <= s[i] <= 'z' || 'A' <= s[i] <= 'Z')
            && (n < |s| ==> !(s[n] == '_' || '0' <= s[n] <= '9' || 'a' <= s[n] <= 'z' || 'A' <= s[n] <= 'Z'))
            && (First(s).Bare? ==> n > 1 && First(s).name == s[1..n])
  {
    NameLengthIsMaximal(s[1..]);
    var n := NameLength(s[1..]);
    assert forall i :: 0 <= i < n ==> s[1..][i] == s[i + 1];
    assert n + 1 < |s| ==> s[1..][n] == s[n + 1];
  }

  function Pieces(s: string): seq<Piece>
    decreases |s|
  {
    if s == "" then [] else [First(s)] + Pieces(s[|Text(First(s))|..])
  }

  function Expanded(s: string, env: Env): string {
    Images(Pieces(s), env)
  }

  // ---- The loop ----

  lemma {:induction false} ExpandedStep(s: string, env: Env)
    requires s != ""
    ensures Expanded(s, env) == Image(First(s), env) + Expanded(s[|Text(First(s))|..], env)
  {
    ConsParts(First(s), Pieces(s[|Text(First(s))|..]));
  }

  method ReadBraced(value: string, start: nat) returns (name: string, closed: bool, i: nat)
    requires start <= |value|
    ensures var n := BraceAt(value[start..]);
            name == value[start..start + n] && closed == (start + n < |value|) && i == start + n + (if closed then 1 else 0)
  {
    name, closed, i := "", false, start;
    while i < |value|
      invariant start <= i <= |value| && name == value[start..i]
      invariant start + BraceAt(value[start..]) == i + BraceAt(value[i..])
    {
      var c := value[i];
      assert value[i..][0] == c && value[i..][1..] == value[i + 1..];
      i := i + 1;
      if c == '}' {
        closed := true;
        break;
      }
      name := name + [c];
    }
  }

  method ReadName(value: string, start: nat) returns (name: string, i: nat)
    requires start <= |value|
    ensures i == start + NameLength(value[start..]) && name == value[start..i]
  {
    name, i := "", start;
    while i < |value| && IsNameChar(value[i])
      invariant start <= i <= |value| && name == value[start..i]
      invariant start + NameLength(value[start..]) == i + NameLength(value[i..])
    {
      assert value[i..][0] == value[i] && value[i..][1..] == value[i + 1..];
      name := name + [value[i]];
      i := i + 1;
    }
  }

  /** The first piece at a position, in terms of the whole string. */
  lemma {:induction false} BracedAt(value: string, i: nat)
    requires i + 1 < |value| && value[i] == '$' && value[i + 1] == '{'
    ensures var n := BraceAt(value[i + 2..]);
            First(value[i..]) == Braced(value[i + 2..i + 2 + n], i + 2 + n < |value|)
  {
    hide NameLength;
    hide BraceAt;
    SuffixOfSuffix(value, i, 2);
    SliceOfSuffix(value, i, 2, 2 + BraceAt(value[i + 2..]));
  }

  lemma {:induction false} BareAt(value: string, i: nat)
    requires i < |value| && value[i] == '$' && (i + 1 < |value| ==> value[i + 1] != '{')
    ensures var n := NameLength(value[i + 1..]);
            First(value[i..]) == if n == 0 then Literal('$') else Bare(value[i + 1..i + 1 + n])
  {
    hide NameLength;
    hide BraceAt;
    SuffixOfSuffix(value, i, 1);
    SliceOfSuffix(value, i, 1, 1 + NameLength(value[i + 1..]));
  }

  lemma {:induction false} SuffixOfSuffix(value: string, i: nat, k: nat)
    requires i + k <= |value|
    ensures value[i..][k..] == value[i + k..]
  {
  }

  /** What a reference contributes: its value, or the reference as written. */
  method ReferenceImage(name: string, env: Env, opening: string, closing: string) returns (image: string)
    ensures image == if name in env then env[name] else opening + name + closing
  {
    if name in env {
      return env[name];
    }
    return opening + name + closing;
  }

  method ExpandBraced(value: string, start: nat, env: Env) returns (image: string, i: nat)
    requires start + 1 < |value| && value[start] == '$' && value[start + 1] == '{'
    ensures var piece := First(value[start..]);
            image == Image(piece, env) && i == start + |Text(piece)|
  {
    hide First;
    hide BraceAt;
    BracedAt(value, start);
    var name, closed;
    name, closed, i := ReadBraced(value, start + 2);
    image := ReferenceImage(name, env, "${", if closed then "}" else "");
  }

  lemma {:induction false} OneMoreNothing(s: string)
    ensures s + "" == s
  {
  }

  method ExpandBare(value: string, start: nat, env: Env) returns (image: string, i: nat)
    requires start < |value| && value[start] == '$' && (start + 1 < |value| ==> value[start + 1] != '{')
    ensures var piece := First(value[start..]);
            image == Image(piece, env) && i == start + |Text(piece)|
  {
    hide First;
    hide NameLength;
    hide Text;
    hide Image;
    hide IsNameChar;
    var name;
    name, i := ReadName(value, start + 1);
    BareFirst(value, start, name, env);
    if |name| == 0 {
      return "$", i;
    }
    image := ReferenceImage(name, env, "$", "");
    OneMoreNothing("$" + name);
  }

  /** The bare reference, or the lone dollar, at a position. */
  lemma {:induction false} BareFirst(value: string, start: nat, name: string, env: Env)
    requires start < |value| && value[start] == '$' && (start + 1 < |value| ==> value[start + 1] != '{')
    requires name == value[start + 1..start + 1 + NameLength(value[start + 1..])]
    ensures var piece := First(value[start..]);
            && |Text(piece)| == 1 + |name|
            && Image(piece, env) == if name == "" then "$" else if name in env then env[name] else "$" + name
  {
    hide First;
    hide NameLength;
    BareAt(value, start);
  }

  /** One turn of the loop: read the piece at `start` and produce its image. */
  method ExpandPiece(value: string, start: nat, env: Env) returns (image: string, i: nat)
    requires start < |value|
    ensures var piece := First(value[start..]);
            image == Image(piece, env) && i == start + |Text(piece)|
  {
    var ch := value[start];
    if ch == '$' {
      if start + 1 < |value| && value[start + 1] == '{' {
        image, i := ExpandBraced(value, start, env);
      } else {
        image, i := ExpandBare(value, start, env);
      }
    } else {
      image, i := [ch], start + 1;
    }
  }

  /** The character loop expands each piece of the input once. */
  method ResolveEnvVars(value: string, env: Env) returns (result: string)
    ensures result == Expanded(value, env)
  {
    result := "";
    var i := 0;
    assert value[0..] == value;
    while i < |value|
      invariant 0 <= i <= |value|
      invariant result + Expanded(value[i..], env) == Expanded(value, env)
      decreases |value| - i
    {
      ExpandedStep(value[i..], env);
      SuffixOfSuffix(value, i, |Text(First(value[i..]))|);
      var image, next := ExpandPiece(value, i, env);
      AppendAssoc(result, image, Expanded(value[next..], env));
      result := result + image;
      i := next;
    }
    assert value[i..] == "" && result + "" == result;
  }

  // ---- What expansion means ----

  /** Nothing is lost in reading. */
  lemma {:induction false} TextsOfPieces(s: string)
    ensures Texts(Pieces(s)) == s
    decreases |s|
  {
    if s == "" {
    } else {
      var n := |Text(First(s))|;
      TextsOfPieces(s[n..]);
      ConsParts(First(s), Pieces(s[n..]));
      HeadAndRest(s, n);
      FirstIsPrefix(s);
      hide First;
      hide Text;
    }
  }

  ghost predicate Mentions(ps: seq<Piece>, env: Env) {
    exists i :: 0 <= i < |ps| && !ps[i].Literal? && ps[i].name in env
  }

  lemma {:induction false} UnmentionedImages(ps: seq<Piece>, env: Env)
    requires !Mentions(ps, env)
    ensures Images(ps, env) == Texts(ps)
  {
    if ps == [] {
    } else {
      assert forall i :: 0 <= i < |ps[1..]| ==> ps[1..][i] == ps[i + 1];
      UnmentionedImages(ps[1..], env);
    }
  }

  /** With no referenced name defined, every string expands to itself. */
  lemma {:induction false} IdentityWhenUndefined(s: string, env: Env)
    requires !Mentions(Pieces(s), env)
    ensures Expanded(s, env) == s
  {
    UnmentionedImages(Pieces(s), env);
    TextsOfPieces(s);
  }

  /**
   * A piece list that reads unambiguously: names are as long as they can be, a lone dollar is not the start
   * of a reference, a closed name has no brace in it, and only the last reference may be unclosed.
   */
  ghost predicate Readable(ps: seq<Piece>) {
    ps == [] ||
    (var rest := Texts(ps[1..]);
     && Readable(ps[1..])
     && match ps[0]
        case Literal(c) => c == '$' ==> rest == "" || (rest[0] != '{' && !IsNameChar(rest[0]))
        case Bare(name) =>
          && name != "" && (forall i :: 0 <= i < |name| ==> IsNameChar(name[i]))
          && (rest == "" || !IsNameChar(rest[0]))
        case Braced(name, closed) =>
          && (forall i :: 0 <= i < |name| ==> name[i] != '}')
          && (closed || ps[1..] == []))
  }

  lemma {:induction false} BraceAtEnd(name: string, rest: string)
    requires forall i :: 0 <= i < |name| ==> name[i] != '}'
    requires rest == "" || rest[0] == '}'
    ensures BraceAt(name + rest) == |name|
  {
    var n := BraceAt(name + rest);
    BraceAtIsFirst(name + rest);
    assert forall i :: 0 <= i < |name| ==> (name + rest)[i] == name[i];
    assert rest != "" ==> (name + rest)[|name|] == '}';
  }

  lemma {:induction false} NameAtEnd(name: string, rest: string)
    requires forall i :: 0 <= i < |name| ==> IsNameChar(name[i])
    requires rest == "" || !IsNameChar(rest[0])
    ensures NameLength(name + rest) == |name|
  {
    var n := NameLength(name + rest);
    NameLengthIsMaximal(name + rest);
    assert forall i :: 0 <= i < |name| ==> (name + rest)[i] == name[i];
    assert rest != "" ==> (name + rest)[|name|] == rest[0];
  }

  lemma {:induction false} FirstOfTexts(p: Piece, rest: string)
    requires match p
             case Literal(c) => c == '$' ==> rest == "" || (rest[0] != '{' && !IsNameChar(rest[0]))
             case Bare(name) =>
               && name != "" && (forall i :: 0 <= i < |name| ==> IsNameChar(name[i]))
               && (rest == "" || !IsNameChar(rest[0]))
             case Braced(name, closed) =>
               && (forall i :: 0 <= i < |name| ==> name[i] != '}')
               && (closed || rest == "")
    ensures First(Text(p) + rest) == p
  {
    match p
    case Literal(c) =>
      ConsParts(c, rest);
    case Bare(name) =>
      NameAtEnd(name, rest);
      AppendAssoc("$", name, rest);
      ConsParts('$', name + rest);
      CutAppend(name, rest);
      FirstBare(name, rest);
    case Braced(name, closed) =>
      FirstBraced(name, closed, rest);
  }

  lemma {:induction false} FirstBare(name: string, rest: string)
    requires name != "" && NameLength(name + rest) == |name| && IsNameChar(name[0])
    ensures First("$" + name + rest) == Bare(name)
  {
    var s := "$" + name + rest;
    assert s[1..] == name + rest && s[1..1 + |name|] == name;
  }

  lemma {:induction false} FirstBraced(name: string, closed: bool, rest: string)
    requires forall i :: 0 <= i < |name| ==> name[i] != '}'
    requires closed || rest == ""
    ensures First(Text(Braced(name, closed)) + rest) == Braced(name, closed)
  {
    var s := Text(Braced(name, closed)) + rest;
    var behind := (if closed then "}" else "") + rest;
    BraceAtEnd(name, behind);
    AppendAssoc("${" + name, if closed then "}" else "", rest);
    AppendAssoc("${", name, behind);
    CutAppend("${", name + behind);
    CutAppend(name, behind);
    assert s[2..2 + |name|] == s[2..][..|name|];
  }

  /** Reading is the inverse of writing on unambiguous piece lists, so replaced text is never read again. */
  lemma {:induction false} PiecesOfTexts(ps: seq<Piece>)
    requires Readable(ps)
    ensures Pieces(Texts(ps)) == ps
  {
    if ps == [] {
    } else {
      var rest := Texts(ps[1..]);
      FirstOfTexts(ps[0], rest);
      CutAppend(Text(ps[0]), rest);
      PiecesOfTexts(ps[1..]);
      HeadTail(ps);
      hide First;
      hide Text;
    }
  }

  /** What a first piece says about the string behind it. */
  lemma {:induction false} FirstEnds(s: string)
    requires s != ""
    ensures var p := First(s);
            var rest := s[|Text(p)|..];
            match p
            case Literal(c) => c == '$' ==> rest == "" || (rest[0] != '{' && !IsNameChar(rest[0]))
            case Bare(name) =>
              && name != "" && (forall i :: 0 <= i < |name| ==> IsNameChar(name[i]))
              && (rest == "" || !IsNameChar(rest[0]))
            case Braced(name, closed) =>
              && (forall i :: 0 <= i < |name| ==> name[i] != '}')
              && (closed || rest == "")
  {
    NameLengthIsMaximal(s[1..]);
    if |s| > 1 {
      BraceAtIsFirst(s[2..]);
    }
    hide BraceAt;
    var p := First(s);
    var rest := s[|Text(p)|..];
    if p.Bare? {
      assert rest != "" ==> rest[0] == s[1..][NameLength(s[1..])];
    } else if p.Braced? {
      assert forall i :: 0 <= i < |p.name| ==> p.name[i] == s[2..][i];
    } else if p.c == '$' {
      assert rest == s[1..];
    }
  }

  /** Every string is read as an unambiguous piece list: with the previous lemma, the only one that spells it. */
  lemma {:induction false} PiecesReadable(s: string)
    ensures Readable(Pieces(s))
    decreases |s|
  {
    if s == "" {
    } else {
      hide First;
      hide Text;
      hide IsNameChar;
      var p := First(s);
      var rest := s[|Text(p)|..];
      PiecesReadable(rest);
      TextsOfPieces(rest);
      ConsParts(p, Pieces(rest));
      FirstEnds(s);
    }
  }

  /** The whole story for any spelling: defined references are replaced, all else is kept. */
  lemma {:induction false} ExpansionOfTexts(ps: seq<Piece>, env: Env)
    requires Readable(ps)
    ensures Expanded(Texts(ps), env) == Images(ps, env)
  {
    PiecesOfTexts(ps);
  }

  /** Values of an env map are expanded one by one; keys are kept. */
  method ResolveEnvMap(vars: map<string, string>, keys: seq<string>, env: Env) returns (resolved: map<string, string>)
    requires Enumerates(keys, vars.Keys)
    ensures resolved.Keys == vars.Keys
    ensures forall k :: k in vars ==> resolved[k] == Expanded(vars[k], env)
  {
    resolved := map[];
    TakeAll(keys);
    for i := 0 to |keys|
      invariant resolved.Keys == Elems(keys[..i])
      invariant forall k :: k in resolved ==> k in vars && resolved[k] == Expanded(vars[k], env)
    {
      assert keys[i] in Elems(keys);
      TakeNext(keys, i);
      ElemsAppend(keys[..i], keys[i]);
      var text := ResolveEnvVars(vars[keys[i]], env);
      resolved := resolved[keys[i] := text];
    }
  }
}
