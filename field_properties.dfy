/** What the routines that parse one field mean: qualified names and
    declarators are maximal token runs, arguments are the comma-separated
    texts before `)`, bind and hardcode lists are the slot lists they render,
    and array counts are decimal numbers. */
module FieldProperties {
  import opened Tokens
  import opened Ast
  import opened Grammar

  // ---------------------------------------------------------------------------
  // Token runs

  /** A run: the tokens whose tag is in `kinds`, or, when `inside` is false,
      the tokens whose tag is not. */
  predicate InRun(t: Token, kinds: set<TokenType>, inside: bool)
  {
    (t.kind in kinds) == inside
  }

  /** The tags of qualified names, of declarators, and the two that end an argument. */
  const NameKinds: set<TokenType> := {Ident, Qualifier}
  const TypeKinds: set<TokenType> := {Star, Amp, Ident, Const, TemplateExpr, Qualifier, Dtor}
  const ArgEnds: set<TokenType> := {Comma, ParenR}
  const ListEnd: set<TokenType> := {ParenR}

  /** The first `n` tokens of `q` are a run, and the run stops there: the
      token after it, if any, is outside. */
  predicate MaximalRun(q: seq<Token>, n: nat, kinds: set<TokenType>, inside: bool)
  {
    && n <= |q|
    && (forall i :: 0 <= i < n ==> InRun(q[i], kinds, inside))
    && (n < |q| ==> !InRun(q[n], kinds, inside))
  }

  /** Dropping `j` tokens of a run shortens it by `j`. */
  lemma MaximalRunDrop(q: seq<Token>, n: nat, j: nat, kinds: set<TokenType>, inside: bool)
    requires MaximalRun(q, n, kinds, inside) && j <= n
    ensures MaximalRun(q[j..], n - j, kinds, inside)
  {
    assert forall i :: 0 <= i < n - j ==> q[j..][i] == q[i + j];
  }

  lemma MaximalRunTail(q: seq<Token>, n: nat, kinds: set<TokenType>, inside: bool)
    requires MaximalRun(q, n, kinds, inside) && n > 0
    ensures MaximalRun(q[1..], n - 1, kinds, inside)
  {
    MaximalRunDrop(q, n, 1, kinds, inside);
  }

  /** Length of the longest prefix of `q` that is a run. */
  function Span(q: seq<Token>, kinds: set<TokenType>, inside: bool): (n: nat)
    ensures n <= |q|
    decreases |q|
  {
    if |q| == 0 || !InRun(q[0], kinds, inside) then 0 else 1 + Span(q[1..], kinds, inside)
  }

  /** The span is the maximal run. */
  lemma {:induction false} SpanMaximal(q: seq<Token>, kinds: set<TokenType>, inside: bool)
    ensures MaximalRun(q, Span(q, kinds, inside), kinds, inside)
    decreases |q|
  {
    if |q| > 0 && InRun(q[0], kinds, inside) {
      SpanMaximal(q[1..], kinds, inside);
      var n := Span(q, kinds, inside);
      assert forall i :: 1 <= i < n ==> q[i] == q[1..][i - 1];
      assert n < |q| ==> q[n] == q[1..][n - 1];
    }
  }

  /** The maximal run is the span. */
  lemma {:induction false} SpanIs(q: seq<Token>, kinds: set<TokenType>, inside: bool, m: nat)
    requires MaximalRun(q, m, kinds, inside)
    ensures Span(q, kinds, inside) == m
    decreases m
  {
    if m > 0 {
      MaximalRunTail(q, m, kinds, inside);
      SpanIs(q[1..], kinds, inside, m - 1);
    }
  }

  lemma {:induction false} ConcatCons(t: Token, ts: seq<Token>)
    ensures Concat([t] + ts) == t.slice + Concat(ts)
    decreases |ts|
  {
    if |ts| == 0 {
      assert ([t] + ts)[..0] == [];
    } else {
      var init, last := ts[..|ts| - 1], ts[|ts| - 1];
      ConcatCons(t, init);
      assert ([t] + ts)[..|ts|] == [t] + init && ([t] + ts)[|ts|] == last;
      AppendAssoc(t.slice, Concat(init), last.slice);
    }
  }

  lemma AppendAssoc<T>(a: seq<T>, b: seq<T>, c: seq<T>)
    ensures (a + b) + c == a + (b + c)
  {
  }

  /** The first token of a run of `n`, split off. */
  lemma RunStep(q: seq<Token>, n: nat)
    requires 0 < n <= |q|
    ensures Concat(q[..n]) == q[0].slice + Concat(q[1..][..n - 1])
    ensures q[..n] == [q[0]] + q[1..][..n - 1]
    ensures q[1..][n - 1..] == q[n..]
    ensures n < |q| ==> q[1..][n..] == q[n + 1..]
  {
    assert q[..n] == [q[0]] + q[1..][..n - 1];
    ConcatCons(q[0], q[1..][..n - 1]);
  }

  // ---------------------------------------------------------------------------
  // Qualified names

  lemma {:induction false} QualifiedNameLoopRun(q: seq<Token>, n: nat, qual: string)
    requires MaximalRun(q, n, NameKinds, true)
    ensures QualifiedNameLoop(q, qual) ==
      if n == |q| then Err(UnexpectedEndOfInput) else Ok(qual + Concat(q[..n]), q[n..])
    decreases n
  {
    if n > 0 {
      var q1, qual1 := q[1..], qual + q[0].slice;
      assert QualifiedNameLoop(q, qual) == QualifiedNameLoop(q1, qual1);
      MaximalRunTail(q, n, NameKinds, true);
      QualifiedNameLoopRun(q1, n - 1, qual1);
      RunStep(q, n);
      AppendAssoc(qual, q[0].slice, Concat(q1[..n - 1]));
    } else if |q| > 0 {
      assert !IsNamePart(q[0]);
      assert QualifiedNameLoop(q, qual) == Ok(qual, q);
      assert q[..0] == [] && q[0..] == q && Concat([]) == "" && qual + "" == qual;
    }
  }

  /** A qualified name is the joined text of the longest `Ident`/`Qualifier` run;
      the run must be followed by a token and its text must not be empty. */
  lemma ParseQualifiedNameMeaning(q: seq<Token>, n: nat)
    requires MaximalRun(q, n, NameKinds, true)
    ensures ParseQualifiedName(q) ==
      if n == |q| then Err(UnexpectedEndOfInput)
      else if Concat(q[..n]) == "" then Err(ExpectedIdentifier)
      else Ok(Concat(q[..n]), q[n..])
  {
    QualifiedNameLoopRun(q, n, "");
    assert "" + Concat(q[..n]) == Concat(q[..n]);
  }

  // ---------------------------------------------------------------------------
  // Attributes

  /** `mangle ( "..." ) ]]`, the only attribute there is. */
  predicate MangleAttribute(q: seq<Token>)
  {
    && |q| >= 5 && q[0] == Token(Ident, "mangle") && q[1].kind == ParenL
    && q[2].kind == String && q[3].kind == ParenR && q[4].kind == AttrR
  }

  /** An attribute parses exactly when it is `mangle("...")` closed by `]]`,
      and gives the mangled name; any other name is rejected as unsupported. */
  lemma AttributeParsed(q: seq<Token>)
    ensures ParseAttribute(q).Ok? <==> MangleAttribute(q)
    ensures MangleAttribute(q) ==> ParseAttribute(q) == Ok(q[2].slice, q[5..])
    ensures |q| >= 2 && q[0].kind == Ident && q[0].slice != "mangle" ==> ParseAttribute(q) == Err(UnsupportedAttribute)
  {
    if |q| >= 5 {
      assert q[1..][1..][1..][1..][1..] == q[5..];
    }
  }

  // ---------------------------------------------------------------------------
  // Declarators

  lemma {:induction false} TypeRunLoopRun(q: seq<Token>, n: nat, run: seq<Token>)
    requires MaximalRun(q, n, TypeKinds, true)
    ensures TypeRunLoop(q, run) == if n == |q| then Err(UnexpectedEndOfInput) else Ok(run + q[..n], q[n..])
    decreases n
  {
    if n > 0 {
      var q1, run1 := q[1..], run + [q[0]];
      assert TypeRunLoop(q, run) == TypeRunLoop(q1, run1);
      MaximalRunTail(q, n, TypeKinds, true);
      TypeRunLoopRun(q1, n - 1, run1);
      RunStep(q, n);
      AppendAssoc(run, [q[0]], q1[..n - 1]);
    } else if |q| > 0 {
      assert !InTypeRun(q[0]);
      assert TypeRunLoop(q, run) == Ok(run, q);
      assert q[..0] == [] && q[0..] == q && run + [] == run;
    }
  }

  /** The declared name is the last token of the longest type-and-name run and
      must be an identifier; the type text joins the tokens before it. */
  lemma ParseDeclaratorMeaning(q: seq<Token>, n: nat)
    requires MaximalRun(q, n, TypeKinds, true)
    ensures ParseDeclarator(q) ==
      if n == |q| then Err(UnexpectedEndOfInput)
      else if n == 0 || q[n - 1].kind != Ident then Err(ExpectedIdentifier)
      else Ok((Concat(q[..n - 1]), q[n - 1].slice), q[n..])
  {
    TypeRunLoopRun(q, n, []);
    assert [] + q[..n] == q[..n];
    if 0 < n <= |q| {
      assert q[..n][..n - 1] == q[..n - 1];
    }
  }

  // ---------------------------------------------------------------------------
  // Argument lists

  /** The arguments written by the tokens between `(` and `)`: the text of each
      comma-separated group, groups with no text left out. */
  function ArgTexts(ts: seq<Token>): seq<string>
    decreases |ts|
  {
    var n := Span(ts, ArgEnds, false);
    var text := Concat(ts[..n]);
    (if text == "" then [] else [text]) + (if n < |ts| then ArgTexts(ts[n + 1..]) else [])
  }

  lemma {:induction false} ArgumentLoopRun(q: seq<Token>, n: nat, arg: string)
    requires MaximalRun(q, n, ArgEnds, false)
    ensures ArgumentLoop(q, arg) ==
      if n == |q| then Err(UnexpectedEndOfInput)
      else Ok(arg + Concat(q[..n]), if q[n].kind == Comma then q[n + 1..] else q[n..])
    decreases n
  {
    if n > 0 {
      var q1, arg1 := q[1..], arg + q[0].slice;
      assert ArgumentLoop(q, arg) == ArgumentLoop(q1, arg1);
      MaximalRunTail(q, n, ArgEnds, false);
      ArgumentLoopRun(q1, n - 1, arg1);
      RunStep(q, n);
      AppendAssoc(arg, q[0].slice, Concat(q1[..n - 1]));
    } else if |q| > 0 {
      assert q[0].kind == Comma || q[0].kind == ParenR;
      assert q[..0] == [] && q[0..] == q && Concat([]) == "" && arg + "" == arg;
    }
  }

  /** One comma-separated group of the parameter list, read by `ArgumentLoop`. */
  lemma ArgumentGroupStep(q: seq<Token>, args: seq<string>, n: nat)
    requires 0 < |q| && q[0].kind != ParenR && MaximalRun(q, n, ArgEnds, false)
    ensures n == |q| ==> ArgumentsLoop(q, args) == Err(UnexpectedEndOfInput)
    ensures n < |q| ==> (ArgumentsLoop(q, args) ==
      var arg := Concat(q[..n]);
      ArgumentsLoop(if q[n].kind == Comma then q[n + 1..] else q[n..], if |arg| == 0 then args else args + [arg]))
  {
    ArgumentLoopRun(q, n, "");
    assert "" + Concat(q[..n]) == Concat(q[..n]);
  }

  /** The first group of an argument text list. */
  lemma ArgTextsStep(ts: seq<Token>, n: nat)
    requires MaximalRun(ts, n, ArgEnds, false)
    ensures ArgTexts(ts) ==
      (if Concat(ts[..n]) == "" then [] else [Concat(ts[..n])]) + (if n < |ts| then ArgTexts(ts[n + 1..]) else [])
  {
    SpanIs(ts, ArgEnds, false, n);
  }

  /** A group that ends in a comma before the first `)` at `p`. */
  lemma ArgumentSlices(q: seq<Token>, n: nat, p: nat)
    requires n < p < |q| && MaximalRun(q, n, ArgEnds, false)
    ensures MaximalRun(q[..p], n, ArgEnds, false)
    ensures q[..p][..n] == q[..n]
    ensures q[..p][n + 1..] == q[n + 1..][..p - (n + 1)]
    ensures q[n + 1..][p - (n + 1) + 1..] == q[p + 1..]
  {
    assert forall i :: 0 <= i < n ==> q[..p][i] == q[i];
    assert q[..p][n] == q[n];
  }

  /** A group ending in a comma contributes its text and leaves the rest of
      the list to the loop. */
  lemma ArgumentsComma(q: seq<Token>, p: nat, args: seq<string>, n: nat)
    requires n < p < |q| && MaximalRun(q, n, ArgEnds, false) && q[n].kind == Comma
    requires var arg := Concat(q[..n]);
      var args1 := if |arg| == 0 then args else args + [arg];
      && ArgumentsLoop(q, args) == ArgumentsLoop(q[n + 1..], args1)
      && ArgumentsLoop(q[n + 1..], args1) == Ok(args1 + ArgTexts(q[n + 1..][..p - (n + 1)]), q[n + 1..][p - (n + 1) + 1..])
    ensures ArgumentsLoop(q, args) == Ok(args + ArgTexts(q[..p]), q[p + 1..])
  {
    var q2, p2 := q[n + 1..], p - (n + 1);
    var arg := Concat(q[..n]);
    ArgumentSlices(q, n, p);
    ArgTextsStep(q[..p], n);
    var first: seq<string> := if arg == "" then [] else [arg];
    var later := ArgTexts(q2[..p2]);
    var args1 := if |arg| == 0 then args else args + [arg];
    assert args1 == args + first by {
      if arg == "" { assert args + [] == args; }
    }
    assert ArgTexts(q[..p]) == first + later;
    AppendAssoc(args, first, later);
    assert q2[p2 + 1..] == q[p + 1..];
  }

  /** A group ending in `)` is the last one. */
  lemma ArgumentsClose(q: seq<Token>, args: seq<string>, n: nat)
    requires n < |q| && MaximalRun(q, n, ArgEnds, false) && q[n].kind == ParenR
    requires var arg := Concat(q[..n]);
      ArgumentsLoop(q, args) == ArgumentsLoop(q[n..], if |arg| == 0 then args else args + [arg])
    ensures ArgumentsLoop(q, args) == Ok(args + ArgTexts(q[..n]), q[n + 1..])
  {
    var arg := Concat(q[..n]);
    var args1 := if |arg| == 0 then args else args + [arg];
    assert ArgumentsLoop(q[n..], args1) == Ok(args1, q[n..][1..]);
    assert q[n..][1..] == q[n + 1..];
    ArgTextsStep(q[..n], n);
    assert q[..n][..n] == q[..n];
    var first: seq<string> := if arg == "" then [] else [arg];
    assert ArgTexts(q[..n]) == first + [] == first;
    assert args1 == args + first by {
      if arg == "" { assert args + [] == args; }
    }
  }

  /** Where the first group ends relative to the first `)`. */
  lemma ArgumentGroupBound(q: seq<Token>, p: nat, n: nat)
    requires MaximalRun(q, n, ArgEnds, false) && MaximalRun(q, p, ListEnd, false)
    ensures n == |q| ==> p == |q|
    ensures n < |q| && q[n].kind == ParenR ==> p == n
    ensures n < |q| && q[n].kind == Comma ==> n < p && MaximalRun(q[n + 1..], p - (n + 1), ListEnd, false)
  {
    assert forall i :: 0 <= i < n ==> InRun(q[i], ListEnd, false);
    if n < |q| && q[n].kind == Comma {
      assert InRun(q[n], ListEnd, false);
      MaximalRunDrop(q, p, n + 1, ListEnd, false);
    }
  }

  /** The parameter list runs to the first `)`, which it consumes; without one
      the input ends first. */
  lemma {:induction false} ArgumentsLoopRun(q: seq<Token>, p: nat, args: seq<string>)
    requires MaximalRun(q, p, ListEnd, false)
    ensures ArgumentsLoop(q, args) ==
      if p == |q| then Err(UnexpectedEndOfInput) else Ok(args + ArgTexts(q[..p]), q[p + 1..])
    decreases |q|
  {
    if |q| > 0 && q[0].kind != ParenR {
      var n := Span(q, ArgEnds, false);
      SpanMaximal(q, ArgEnds, false);
      ArgumentGroupStep(q, args, n);
      ArgumentGroupBound(q, p, n);
      if n < |q| && q[n].kind == Comma {
        var arg := Concat(q[..n]);
        ArgumentsLoopRun(q[n + 1..], p - (n + 1), if |arg| == 0 then args else args + [arg]);
        if p < |q| {
          ArgumentsComma(q, p, args, n);
        }
      } else if n < |q| {
        ArgumentsClose(q, args, n);
      }
    } else if |q| > 0 {
      assert p == 0 && q[..0] == [];
      assert ArgTexts([]) == [] && args + [] == args;
    }
  }

  /** `(`, the arguments up to the first `)`, then `const` or not: the arguments
      are the comma-separated texts, and the function is const exactly when
      `const` follows the `)`. */
  lemma ParseParametersMeaning(q: seq<Token>, p: nat, f: Function)
    requires |q| > 0 && q[0].kind == ParenL && p > 0 && MaximalRun(q[1..], p - 1, ListEnd, false)
    ensures ParseParameters(q, f) ==
      if p + 1 >= |q| then Err(UnexpectedEndOfInput)
      else Ok(f.(args := f.args + ArgTexts(q[1..p]), isConst := f.isConst || q[p + 1].kind == Const),
              if q[p + 1].kind == Const then q[p + 2..] else q[p + 1..])
  {
    ArgumentsLoopRun(q[1..], p - 1, f.args);
    assert q[1..][..p - 1] == q[1..p];
    if p < |q| {
      assert q[1..][p..] == q[p + 1..];
    }
  }

  /** After the parameters a function needs `=`, and its binds follow it. */
  lemma FunctionNeedsEqual(q: seq<Token>, c: ClassValue, f: Function)
    requires ParseParameters(q, f).Ok?
    ensures var p := ParseParameters(q, f);
      ParseFunction(q, c, f).Ok? <==>
        |p.rest| > 0 && p.rest[0].kind == Equal && BindsLoop(p.rest[1..], 0, p.value.binds).Ok?
  {
  }

  // ---------------------------------------------------------------------------
  // Bind and hardcode lists

  const CommaToken: Token := Token(Comma, ",")
  const SemiToken: Token := Token(Semi, ";")

  /** Function binds and member hardcodes write an empty slot differently. */
  datatype SlotStyle = Binds | Hardcodes

  /** How a slot is written: its address; for an empty slot nothing in a bind
      list and a comma of its own in a hardcode list. */
  function SlotTokens(x: string, style: SlotStyle): seq<Token>
  {
    if x != "" then [Token(Address, x)]
    else if style == Binds then []
    else [CommaToken]
  }

  /** The slots `s` written one after another, each followed by `,`; when
      `closed`, the last one is followed by `;` instead. */
  function RenderSlots(s: seq<string>, style: SlotStyle, closed: bool): seq<Token>
    decreases |s|
  {
    if |s| == 0 then []
    else SlotTokens(s[0], style) + [if |s| == 1 && closed then SemiToken else CommaToken] + RenderSlots(s[1..], style, closed)
  }

  /** `h` with `s` written into the slots from `k` on. */
  function Fill(h: Slots, k: nat, s: seq<string>): Slots
    requires k + |s| <= SlotCount
  {
    h[..k] + s + h[k + |s|..]
  }

  /** Writing the first slot, then the others, is writing them all. */
  lemma FillStep(h: Slots, k: nat, s: seq<string>)
    requires 0 < |s| && k + |s| <= SlotCount
    ensures Fill(h[k := s[0]], k + 1, s[1..]) == Fill(h, k, s)
    ensures |s| == 1 ==> Fill(h, k, s) == h[k := s[0]]
  {
    var h1 := h[k := s[0]];
    assert h1[..k + 1] + [] + h1[k + 1..] == h1;
    assert h1[..k + 1] == h[..k] + [s[0]];
    assert h1[k + 1 + |s| - 1..] == h[k + |s|..];
    assert [s[0]] + s[1..] == s;
  }

  /** `s` followed by empty slots. */
  function Padded(s: seq<string>): Slots
    requires |s| <= SlotCount
  {
    s + EmptySlots[|s|..]
  }

  /** The tags a parser sees in a list it wrote itself: a comma or a semicolon
      is spelt as such and an address is never empty. */
  predicate Canonical(t: Token)
  {
    && (t.kind == Comma ==> t == CommaToken)
    && (t.kind == Semi ==> t == SemiToken)
    && (t.kind == Address ==> t.slice != "")
  }

  predicate AllCanonical(q: seq<Token>)
  {
    forall i :: 0 <= i < |q| ==> Canonical(q[i])
  }

  lemma AllCanonicalSuffix(q: seq<Token>, j: nat)
    requires AllCanonical(q) && j <= |q|
    ensures AllCanonical(q[j..])
  {
    assert forall i :: 0 <= i < |q| - j ==> q[j..][i] == q[j + i];
  }

  lemma RenderStep(s: seq<string>, style: SlotStyle, closed: bool, rest: seq<Token>)
    requires |s| > 0
    ensures RenderSlots(s, style, closed) + rest ==
      SlotTokens(s[0], style) + [if |s| == 1 && closed then SemiToken else CommaToken] + (RenderSlots(s[1..], style, closed) + rest)
  {
    var sep := if |s| == 1 && closed then SemiToken else CommaToken;
    AppendAssoc(SlotTokens(s[0], style) + [sep], RenderSlots(s[1..], style, closed), rest);
  }

  /** Nothing written before `rest`. */
  lemma RenderNone(style: SlotStyle, closed: bool, rest: seq<Token>)
    ensures RenderSlots([], style, closed) + rest == rest
  {
  }

  /** `q` parsed from slot `k` on as `r` is the list `s` written out: one to
      three slots, the last of a bind list not empty, filled into `h`. */
  predicate WrittenAs(q: seq<Token>, style: SlotStyle, k: nat, h: Slots, r: Parsed<Slots>, s: seq<string>)
  {
    && r.Ok? && 0 < |s| && k + |s| <= SlotCount
    && (style == Binds ==> s[|s| - 1] != "")
    && q == RenderSlots(s, style, true) + r.rest && r.value == Fill(h, k, s)
  }

  /** A last slot, followed by `;`. */
  lemma WrittenLast(x: string, style: SlotStyle, k: nat, h: Slots, rest: seq<Token>)
    requires k < SlotCount && (style == Binds ==> x != "")
    ensures var h1: Slots := h[k := x];
      WrittenAs(SlotTokens(x, style) + [SemiToken] + rest, style, k, h, Ok(h1, rest), [x])
  {
    RenderStep([x], style, true, rest);
    RenderNone(style, true, rest);
    FillStep(h, k, [x]);
  }

  /** A slot followed by `,` in front of a written list. */
  lemma WrittenCons(x: string, s: seq<string>, style: SlotStyle, k: nat, h: Slots, tail: seq<Token>, r: Parsed<Slots>)
    requires k < SlotCount
    requires var h1: Slots := h[k := x]; WrittenAs(tail, style, k + 1, h1, r, s)
    ensures WrittenAs(SlotTokens(x, style) + [CommaToken] + tail, style, k, h, r, [x] + s)
  {
    var s1 := [x] + s;
    assert s1[0] == x && s1[1..] == s && s1[|s1| - 1] == s[|s| - 1];
    RenderStep(s1, style, true, r.rest);
    FillStep(h, k, s1);
  }

  /** A bind slot followed by `,` leaves the rest of the list to the loop. */
  lemma BindsComma(x: string, tail: seq<Token>, k: nat, h: Slots)
    requires k < SlotCount
    ensures var h1: Slots := h[k := x];
      BindsLoop(SlotTokens(x, Binds) + [CommaToken] + tail, k, h) == BindsLoop(tail, k + 1, h1)
  {
    BindsStep(x, CommaToken, tail, k, h);
  }

  /** One bind slot and its separator: an empty slot may not stand before `;`. */
  lemma BindsStep(x: string, sep: Token, tail: seq<Token>, k: nat, h: Slots)
    requires k < SlotCount && (sep == CommaToken || sep == SemiToken)
    ensures var h1: Slots := h[k := x];
      BindsLoop(SlotTokens(x, Binds) + [sep] + tail, k, h) ==
        if x == "" && sep == SemiToken then Err(ExpectedAddress)
        else if sep == SemiToken then Ok(h1, tail)
        else BindsLoop(tail, k + 1, h1)
  {
    var q := SlotTokens(x, Binds) + [sep] + tail;
    if x != "" {
      assert q[0] == Token(Address, x) && q[1..] == [sep] + tail && q[1..][1..] == tail;
    } else {
      assert q == [sep] + tail && q[1..] == tail;
    }
  }

  /** A written bind list parses back to its slots, provided the last slot is
      not empty: an empty slot is read as "no address before the separator",
      and `;` is not a separator a slot may stand in front of. */
  lemma {:induction false} BindsRender(s: seq<string>, k: nat, h: Slots, rest: seq<Token>)
    requires 0 < |s| && k + |s| <= SlotCount && s[|s| - 1] != ""
    ensures BindsLoop(RenderSlots(s, Binds, true) + rest, k, h) == Ok(Fill(h, k, s), rest)
    decreases |s|
  {
    RenderStep(s, Binds, true, rest);
    BindsStep(s[0], if |s| == 1 then SemiToken else CommaToken, RenderSlots(s[1..], Binds, true) + rest, k, h);
    FillStep(h, k, s);
    if |s| > 1 {
      BindsRender(s[1..], k + 1, h[k := s[0]], rest);
    } else {
      RenderNone(Binds, true, rest);
    }
  }

  /** Bind lists as they appear after `=`: one to three slots, ending in an address. */
  lemma BindsRoundTrip(s: seq<string>, rest: seq<Token>)
    requires 0 < |s| <= SlotCount && s[|s| - 1] != ""
    ensures BindsLoop(RenderSlots(s, Binds, true) + rest, 0, EmptySlots) == Ok(Padded(s), rest)
  {
    BindsRender(s, 0, EmptySlots, rest);
    assert EmptySlots[..0] + s + EmptySlots[|s|..] == Padded(s);
  }

  /** The first slot of a bind list that parses, the separator after it
      and the rest of the list. */
  lemma BindsFirst(q: seq<Token>, k: nat, h: Slots) returns (x: string, sep: Token, tail: seq<Token>)
    requires AllCanonical(q) && BindsLoop(q, k, h).Ok?
    ensures k < SlotCount && (sep == CommaToken || sep == SemiToken) && !(x == "" && sep == SemiToken)
    ensures q == SlotTokens(x, Binds) + [sep] + tail && AllCanonical(tail)
  {
    assert Canonical(q[0]);
    if q[0].kind == Address {
      assert Canonical(q[1]);
      x, sep, tail := q[0].slice, q[1], q[2..];
      assert q == [q[0]] + [q[1]] + q[2..];
      AllCanonicalSuffix(q, 2);
    } else {
      x, sep, tail := "", q[0], q[1..];
      assert q == [] + [q[0]] + q[1..];
      AllCanonicalSuffix(q, 1);
    }
  }

  /** Every bind list that parses is a written list of one to three slots. */
  lemma BindsParsed(q: seq<Token>, k: nat, h: Slots)
    requires AllCanonical(q) && BindsLoop(q, k, h).Ok?
    ensures exists s :: WrittenAs(q, Binds, k, h, BindsLoop(q, k, h), s)
  {
    var s := BindsWritten(q, k, h);
  }

  /** The slots a parsed bind list was written from. */
  lemma {:induction false} BindsWritten(q: seq<Token>, k: nat, h: Slots) returns (s: seq<string>)
    requires AllCanonical(q) && BindsLoop(q, k, h).Ok?
    ensures WrittenAs(q, Binds, k, h, BindsLoop(q, k, h), s)
    decreases SlotCount - k
  {
    var x, sep, tail := BindsFirst(q, k, h);
    var r := BindsLoop(q, k, h);
    var h1: Slots := h[k := x];
    assert r == (if sep == SemiToken then Ok(h1, tail) else BindsLoop(tail, k + 1, h1)) by {
      BindsStep(x, sep, tail, k, h);
    }
    if sep == SemiToken {
      s := [x];
      assert WrittenAs(q, Binds, k, h, r, s) by {
        WrittenLast(x, Binds, k, h, tail);
      }
    } else {
      var s1 := BindsWritten(tail, k + 1, h1);
      s := [x] + s1;
      assert WrittenAs(q, Binds, k, h, r, s) by {
        WrittenCons(x, s1, Binds, k, h, tail, r);
      }
    }
  }

  /** Slots each followed by `,` are written into the list and leave the
      rest of it to the loop. */
  lemma {:induction false} BindsPrefix(s: seq<string>, k: nat, h: Slots, tail: seq<Token>)
    requires k + |s| <= SlotCount
    ensures BindsLoop(RenderSlots(s, Binds, false) + tail, k, h) == BindsLoop(tail, k + |s|, Fill(h, k, s))
    decreases |s|
  {
    if |s| == 0 {
      RenderNone(Binds, false, tail);
      assert h[..k] + s + h[k..] == h;
    } else {
      var h1: Slots := h[k := s[0]];
      var q1 := RenderSlots(s[1..], Binds, false) + tail;
      assert BindsLoop(RenderSlots(s, Binds, false) + tail, k, h) == BindsLoop(q1, k + 1, h1) by {
        RenderStep(s, Binds, false, tail);
        BindsComma(s[0], q1, k, h);
      }
      assert BindsLoop(q1, k + 1, h1) == BindsLoop(tail, k + |s|, Fill(h, k, s)) by {
        BindsPrefix(s[1..], k + 1, h1, tail);
        FillStep(h, k, s);
      }
    }
  }

  /** Three slots each followed by `,` ask for a fourth. */
  lemma BindsTooMany(s: seq<string>, k: nat, h: Slots, rest: seq<Token>)
    requires k + |s| == SlotCount
    ensures BindsLoop(RenderSlots(s, Binds, false) + rest, k, h) == Err(TooManySlots)
  {
    BindsPrefix(s, k, h, rest);
  }


  /** A bind list may not end in `,` before `;` (so neither `= ;` nor `= a, b, ;` parses). */
  lemma BindsTrailingComma(s: seq<string>, k: nat, h: Slots, rest: seq<Token>)
    requires k + |s| < SlotCount
    ensures BindsLoop(RenderSlots(s, Binds, false) + ([SemiToken] + rest), k, h) == Err(ExpectedAddress)
  {
    BindsPrefix(s, k, h, [SemiToken] + rest);
  }


  /** One hardcode slot, an address or a comma of its own, and its separator. */
  lemma HardcodesStep(x: string, sep: Token, tail: seq<Token>, k: nat, h: Slots)
    requires k < SlotCount && (sep == CommaToken || sep == SemiToken)
    ensures var h1: Slots := h[k := x];
      HardcodesLoop(SlotTokens(x, Hardcodes) + [sep] + tail, k, h) ==
        if sep == SemiToken then Ok(h1, tail) else HardcodesLoop(tail, k + 1, h1)
  {
    var q := SlotTokens(x, Hardcodes) + [sep] + tail;
    assert q[0] == (if x != "" then Token(Address, x) else CommaToken);
    assert q[1..] == [sep] + tail && q[1..][1..] == tail;
  }

  /** A hardcode slot followed by `,` leaves the rest of the list to the loop. */
  lemma HardcodesComma(x: string, tail: seq<Token>, k: nat, h: Slots)
    requires k < SlotCount
    ensures var h1: Slots := h[k := x];
      HardcodesLoop(SlotTokens(x, Hardcodes) + [CommaToken] + tail, k, h) == HardcodesLoop(tail, k + 1, h1)
  {
    HardcodesStep(x, CommaToken, tail, k, h);
  }

  /** A written hardcode list parses back to its slots; here an empty slot is a
      comma of its own, so any slot may be empty. */
  lemma {:induction false} HardcodesRender(s: seq<string>, k: nat, h: Slots, rest: seq<Token>)
    requires 0 < |s| && k + |s| <= SlotCount
    ensures HardcodesLoop(RenderSlots(s, Hardcodes, true) + rest, k, h) == Ok(Fill(h, k, s), rest)
    decreases |s|
  {
    RenderStep(s, Hardcodes, true, rest);
    HardcodesStep(s[0], if |s| == 1 then SemiToken else CommaToken, RenderSlots(s[1..], Hardcodes, true) + rest, k, h);
    FillStep(h, k, s);
    if |s| > 1 {
      HardcodesRender(s[1..], k + 1, h[k := s[0]], rest);
    } else {
      RenderNone(Hardcodes, true, rest);
    }
  }

  lemma HardcodesRoundTrip(s: seq<string>, rest: seq<Token>)
    requires 0 < |s| <= SlotCount
    ensures HardcodesLoop(RenderSlots(s, Hardcodes, true) + rest, 0, EmptySlots) == Ok(Padded(s), rest)
  {
    HardcodesRender(s, 0, EmptySlots, rest);
    assert EmptySlots[..0] + s + EmptySlots[|s|..] == Padded(s);
  }

  /** The first slot of a hardcode list that parses, the separator after it
      and the rest of the list. */
  lemma HardcodesFirst(q: seq<Token>, k: nat, h: Slots) returns (x: string, sep: Token, tail: seq<Token>)
    requires AllCanonical(q) && HardcodesLoop(q, k, h).Ok?
    ensures k < SlotCount && (sep == CommaToken || sep == SemiToken)
    ensures q == SlotTokens(x, Hardcodes) + [sep] + tail && AllCanonical(tail)
  {
    assert Canonical(q[0]) && Canonical(q[1]);
    x, sep, tail := if q[0].kind == Address then q[0].slice else "", q[1], q[2..];
    assert q == [q[0]] + [q[1]] + q[2..];
    AllCanonicalSuffix(q, 2);
  }

  /** Every hardcode list that parses is a written list of one to three slots. */
  lemma HardcodesParsed(q: seq<Token>, k: nat, h: Slots)
    requires AllCanonical(q) && HardcodesLoop(q, k, h).Ok?
    ensures exists s :: WrittenAs(q, Hardcodes, k, h, HardcodesLoop(q, k, h), s)
  {
    var s := HardcodesWritten(q, k, h);
  }

  /** The slots a parsed hardcode list was written from. */
  lemma {:induction false} HardcodesWritten(q: seq<Token>, k: nat, h: Slots) returns (s: seq<string>)
    requires AllCanonical(q) && HardcodesLoop(q, k, h).Ok?
    ensures WrittenAs(q, Hardcodes, k, h, HardcodesLoop(q, k, h), s)
    decreases SlotCount - k
  {
    var x, sep, tail := HardcodesFirst(q, k, h);
    var r := HardcodesLoop(q, k, h);
    var h1: Slots := h[k := x];
    assert r == (if sep == SemiToken then Ok(h1, tail) else HardcodesLoop(tail, k + 1, h1)) by {
      HardcodesStep(x, sep, tail, k, h);
    }
    if sep == SemiToken {
      s := [x];
      assert WrittenAs(q, Hardcodes, k, h, r, s) by {
        WrittenLast(x, Hardcodes, k, h, tail);
      }
    } else {
      var s1 := HardcodesWritten(tail, k + 1, h1);
      s := [x] + s1;
      assert WrittenAs(q, Hardcodes, k, h, r, s) by {
        WrittenCons(x, s1, Hardcodes, k, h, tail, r);
      }
    }
  }

  /** Slots each followed by `,` are written into the list and leave the
      rest of it to the loop. */
  lemma {:induction false} HardcodesPrefix(s: seq<string>, k: nat, h: Slots, tail: seq<Token>)
    requires k + |s| <= SlotCount
    ensures HardcodesLoop(RenderSlots(s, Hardcodes, false) + tail, k, h) == HardcodesLoop(tail, k + |s|, Fill(h, k, s))
    decreases |s|
  {
    if |s| == 0 {
      RenderNone(Hardcodes, false, tail);
      assert h[..k] + s + h[k..] == h;
    } else {
      var h1: Slots := h[k := s[0]];
      var q1 := RenderSlots(s[1..], Hardcodes, false) + tail;
      assert HardcodesLoop(RenderSlots(s, Hardcodes, false) + tail, k, h) == HardcodesLoop(q1, k + 1, h1) by {
        RenderStep(s, Hardcodes, false, tail);
        HardcodesComma(s[0], q1, k, h);
      }
      assert HardcodesLoop(q1, k + 1, h1) == HardcodesLoop(tail, k + |s|, Fill(h, k, s)) by {
        HardcodesPrefix(s[1..], k + 1, h1, tail);
        FillStep(h, k, s);
      }
    }
  }

  lemma HardcodesTooMany(s: seq<string>, k: nat, h: Slots, rest: seq<Token>)
    requires k + |s| == SlotCount
    ensures HardcodesLoop(RenderSlots(s, Hardcodes, false) + rest, k, h) == Err(TooManySlots)
  {
    HardcodesPrefix(s, k, h, rest);
  }


  /** Unlike a bind list, a hardcode list skips a slot with a comma of its own
      and then a separator: `a,,b;` stops at `b` and `a,,,b;` is the list a, empty, b. */
  lemma HardcodesEmptySlot(a: string, b: string, rest: seq<Token>)
    requires a != "" && b != ""
    ensures HardcodesLoop([Token(Address, a), CommaToken, CommaToken, Token(Address, b), SemiToken] + rest, 0, EmptySlots)
      == Err(ExpectedSeparator)
    ensures var slots: Slots := [a, "", b];
      HardcodesLoop([Token(Address, a), CommaToken, CommaToken, CommaToken, Token(Address, b), SemiToken] + rest, 0, EmptySlots)
        == Ok(slots, rest)
  {
    var q := [Token(Address, a), CommaToken, CommaToken, Token(Address, b), SemiToken] + rest;
    assert HardcodesLoop(q, 0, EmptySlots) == Err(ExpectedSeparator) by {
      assert q[1..][1..][1..] == [Token(Address, b), SemiToken] + rest;
    }
    var s := [a, "", b];
    var slots: Slots := s;
    var written := [Token(Address, a), CommaToken, CommaToken, CommaToken, Token(Address, b), SemiToken];
    assert HardcodesLoop(written + rest, 0, EmptySlots) == Ok(slots, rest) by {
      assert RenderSlots(s, Hardcodes, true) == written by {
        assert s[1..] == ["", b] && s[1..][1..] == [b] && s[1..][1..][1..] == [];
        assert RenderSlots([b], Hardcodes, true) == [Token(Address, b), SemiToken];
        assert RenderSlots(["", b], Hardcodes, true) == [CommaToken, CommaToken] + [Token(Address, b), SemiToken];
      }
      HardcodesRoundTrip(s, rest);
      assert Padded(s) == s;
    }
  }

  /** Since an empty hardcode slot consumes its own comma, that comma may stand
      right before `;`: `,;` is the empty list and `a,,;` the list a, empty. */
  lemma HardcodesEmptyLast(a: string, rest: seq<Token>)
    requires a != ""
    ensures HardcodesLoop([CommaToken, SemiToken] + rest, 0, EmptySlots) == Ok(EmptySlots, rest)
    ensures var slots: Slots := [a, "", ""];
      HardcodesLoop([Token(Address, a), CommaToken, CommaToken, SemiToken] + rest, 0, EmptySlots)
        == Ok(slots, rest)
  {
    var q := [CommaToken, SemiToken] + rest;
    assert HardcodesLoop(q, 0, EmptySlots) == Ok(EmptySlots, rest) by {
      assert q[1..][1..] == rest;
      assert EmptySlots[0 := ""] == EmptySlots;
    }
    var q2 := [Token(Address, a), CommaToken, CommaToken, SemiToken] + rest;
    var slots: Slots := [a, "", ""];
    assert HardcodesLoop(q2, 0, EmptySlots) == Ok(slots, rest) by {
      assert q2[1..][1..] == [CommaToken, SemiToken] + rest;
      assert q2[1..][1..][1..][1..] == rest;
      assert EmptySlots[0 := a][1 := ""] == slots;
    }
  }

  /** Likewise `a,,b;` is the bind list a, empty, b. */
  lemma BindsEmptySlot(a: string, b: string, rest: seq<Token>)
    requires a != "" && b != ""
    ensures var slots: Slots := [a, "", b];
      BindsLoop([Token(Address, a), CommaToken, CommaToken, Token(Address, b), SemiToken] + rest, 0, EmptySlots)
        == Ok(slots, rest)
  {
    var s := [a, "", b];
    assert s[1..] == ["", b] && s[1..][1..] == [b] && s[1..][1..][1..] == [];
    assert RenderSlots([b], Binds, true) == [Token(Address, b), SemiToken];
    assert RenderSlots(["", b], Binds, true) == [CommaToken] + [Token(Address, b), SemiToken];
    assert RenderSlots(s, Binds, true) == [Token(Address, a), CommaToken] + [CommaToken] + [Token(Address, b), SemiToken];
    assert RenderSlots([a, "", b], Binds, true) + rest
      == [Token(Address, a), CommaToken, CommaToken, Token(Address, b), SemiToken] + rest;
    BindsRoundTrip([a, "", b], rest);
    assert Padded([a, "", b]) == [a, "", b];
  }

  /** Slots each followed by a separating `,` may not be followed by `;` in a
      hardcode list either. */
  lemma HardcodesTrailingComma(s: seq<string>, k: nat, h: Slots, rest: seq<Token>)
    requires k + |s| < SlotCount
    ensures HardcodesLoop(RenderSlots(s, Hardcodes, false) + ([SemiToken] + rest), k, h) == Err(ExpectedAddress)
  {
    HardcodesPrefix(s, k, h, [SemiToken] + rest);
  }


  /** A slot that is neither an address nor a comma, or a slot followed by
      anything but `,` or `;`, ends either list with an error. A hardcode slot
      that is a comma of its own needs a separator after that comma too. */
  lemma SlotErrors(q: seq<Token>, k: nat, h: Slots)
    requires k < SlotCount && |q| > 0
    ensures q[0].kind != Comma && q[0].kind != Address ==>
      BindsLoop(q, k, h) == Err(ExpectedAddress) && HardcodesLoop(q, k, h) == Err(ExpectedAddress)
    ensures |q| > 1 && q[0].kind == Address && q[1].kind != Comma && q[1].kind != Semi ==>
      BindsLoop(q, k, h) == Err(ExpectedSeparator) && HardcodesLoop(q, k, h) == Err(ExpectedSeparator)
    ensures |q| > 1 && q[0].kind == Comma && q[1].kind != Comma && q[1].kind != Semi ==>
      HardcodesLoop(q, k, h) == Err(ExpectedSeparator)
    ensures |q| == 1 && (q[0].kind == Address || q[0].kind == Comma) ==>
      HardcodesLoop(q, k, h) == Err(UnexpectedEndOfInput)
    ensures |q| == 1 && q[0].kind == Address ==> BindsLoop(q, k, h) == Err(UnexpectedEndOfInput)
  {
    if |q| > 1 {
      assert q[1..][0] == q[1];
    }
  }

  /** A member has hardcodes only after `=`; without it a `;` must follow and
      every slot stays empty. */
  lemma MemberSlotsChoice(q: seq<Token>)
    requires |q| > 0
    ensures q[0].kind == Equal ==> ParseMemberSlots(q) == HardcodesLoop(q[1..], 0, EmptySlots)
    ensures q[0].kind != Equal ==> (ParseMemberSlots(q) ==
      if q[0].kind == Semi then Ok(EmptySlots, q[1..])
      else if |q| == 1 then Err(UnexpectedEndOfInput) else Err(UnexpectedToken(Semi)))
  {
  }

  // ---------------------------------------------------------------------------
  // Array counts

  /** The decimal digits of `n`, most significant first, without leading zeros. */
  function DecimalString(n: nat): (s: string)
    ensures IsDigits(s) && |s| > 0
    decreases n
  {
    var digit := ('0' as int + n % 10) as char;
    if n < 10 then [digit] else DecimalString(n / 10) + [digit]
  }

  lemma {:induction false} DecimalRoundTrip(n: nat)
    ensures DecimalValue(DecimalString(n)) == n
    decreases n
  {
    var s := DecimalString(n);
    if n >= 10 {
      DecimalRoundTrip(n / 10);
      assert s[..|s| - 1] == DecimalString(n / 10);
    } else {
      assert s[..0] == [];
    }
  }

  /** `[N]` after the name gives count N. */
  lemma MemberCountArray(n: nat, open: Token, close: Token, rest: seq<Token>)
    requires open.kind == BrackL && close.kind == BrackR
    ensures ParseMemberCount([open, Token(Ident, DecimalString(n)), close] + rest) == Ok(n, rest)
  {
    DecimalRoundTrip(n);
    var q := [open, Token(Ident, DecimalString(n)), close] + rest;
    assert q[1..][1..][1..] == rest;
  }

  /** Without `[`, the count is 1 and nothing is consumed. */
  lemma MemberCountDefault(q: seq<Token>)
    requires |q| > 0 && q[0].kind != BrackL
    ensures ParseMemberCount(q) == Ok(1, q)
  {
  }

  /** A count only parses from digits between `[` and `]`. */
  lemma MemberCountDigitsOnly(q: seq<Token>)
    requires |q| > 0 && q[0].kind == BrackL && ParseMemberCount(q).Ok?
    ensures |q| >= 3 && q[1].kind == Ident && IsDigits(q[1].slice) && q[2].kind == BrackR
    ensures ParseMemberCount(q) == Ok(DecimalValue(q[1].slice), q[3..])
  {
    assert q[1..][1..][1..] == q[3..];
  }

  // ---------------------------------------------------------------------------
  // Qualifiers

  predicate IsQualifier(k: TokenType)
  {
    k == Virtual || k == Static
  }

  /** `ts` holds a token tagged `k`. */
  predicate Has(ts: seq<Token>, k: TokenType)
  {
    exists i :: 0 <= i < |ts| && ts[i].kind == k
  }

  /** At most one `virtual` and at most one `static`, in either order. */
  predicate QualifierPrefix(ts: seq<Token>)
  {
    && |ts| <= 2
    && (forall i :: 0 <= i < |ts| ==> IsQualifier(ts[i].kind))
    && (|ts| == 2 ==> ts[0].kind != ts[1].kind)
  }

  /** The qualifiers in front of a field are read in either order, each at most
      once; reading stops at the first token that is not a qualifier still missing. */
  lemma QualifiersOfPrefix(p: seq<Token>, rest: seq<Token>)
    requires QualifierPrefix(p)
    requires |p| < 2 ==> |rest| > 0
    requires |rest| > 0 && IsQualifier(rest[0].kind) ==> Has(p, rest[0].kind)
    ensures ParseQualifiers(p + rest) == Ok((Has(p, Virtual), Has(p, Static)), rest)
  {
    var q := p + rest;
    if |p| == 0 {
      assert q == rest;
    } else if |p| == 1 {
      assert q[1..] == rest;
      assert p[0] == q[0];
    } else {
      assert q[1..][1..] == rest;
      assert p[0] == q[0] && p[1] == q[1];
    }
  }

  /** Whatever `ParseQualifiers` accepts is such a prefix, and the flags say
      which qualifiers it holds. */
  lemma QualifiersParsed(q: seq<Token>)
    requires ParseQualifiers(q).Ok?
    ensures var r := ParseQualifiers(q); var n := |q| - |r.rest|;
      && n <= 2 && r.rest == q[n..] && QualifierPrefix(q[..n])
      && r.value == (Has(q[..n], Virtual), Has(q[..n], Static))
      && (|r.rest| > 0 && IsQualifier(r.rest[0].kind) ==> Has(q[..n], r.rest[0].kind))
  {
    var n := QualifierCount(q);
    var p, rest := q[..n], q[n..];
    assert p + rest == q;
    if n == 1 {
      assert p[0] == q[0];
    } else if n == 2 {
      assert p[0] == q[0] && p[1] == q[1];
    }
    QualifiersOfPrefix(p, rest);
  }

  /** How many qualifiers `ParseQualifiers` consumes. */
  lemma QualifierCount(q: seq<Token>) returns (n: nat)
    requires ParseQualifiers(q).Ok?
    ensures n <= 2 && n < |q| + (if n == 2 then 1 else 0) && ParseQualifiers(q).rest == q[n..]
    ensures n == 0 ==> !IsQualifier(q[0].kind)
    ensures n >= 1 ==> IsQualifier(q[0].kind)
    ensures n == 1 ==> !(IsQualifier(q[1].kind) && q[1].kind != q[0].kind)
    ensures n == 2 ==> IsQualifier(q[1].kind) && q[1].kind != q[0].kind
  {
    if !IsQualifier(q[0].kind) {
      n := 0;
    } else if IsQualifier(q[1].kind) && q[1].kind != q[0].kind {
      n := 2;
      assert q[1..][1..] == q[2..];
    } else {
      n := 1;
    }
  }

}
