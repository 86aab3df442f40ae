/** What the parser does with an input that ends too early.

    The source reads its queue only from the front, and every routine that
    reads past the end stops with the end of input. So each function of
    Grammar that returns a `Parsed` outcome, from `Next` to `ParseClass`, is
    prefix-stable: run on the tokens `t` alone, it either reports the end of
    input, or it does exactly what it does on `t + u` — the same value with
    `u` still queued after the same rest, or the same error. The program loop
    is not: it ends with success wherever the queue runs out between classes.
    For it, `ProgramConcat` and `TruncatedProgram` state the program-level
    facts: a parsed program followed by more tokens goes on from the map it
    built, and a class cut off anywhere before its closing `}` is the end of
    input. */
module Truncation {
  import opened Tokens
  import opened Ast
  import opened Grammar

  /** The outcome on `t`, seen from `t + u`: the same value with `u` still
      queued after the same rest, or the same error. */
  function Extend<T>(p: Parsed<T>, u: seq<Token>): Parsed<T>
  {
    match p
    case Ok(v, r) => Ok(v, r + u)
    case Err(e) => Err(e)
  }

  /** `short` is the outcome on `t` and `long` the one on `t + u`. */
  ghost predicate Stable<T>(short: Parsed<T>, long: Parsed<T>, u: seq<Token>)
  {
    short == Err(UnexpectedEndOfInput) || long == Extend(short, u)
  }

  lemma Tail(t: seq<Token>, u: seq<Token>)
    requires |t| > 0
    ensures (t + u)[0] == t[0] && (t + u)[1..] == t[1..] + u
  {
  }

  // ---------------------------------------------------------------------------
  // Token cursor (parse.hpp lines 10-41)

  lemma NextStable(t: seq<Token>, u: seq<Token>)
    ensures Stable(Next(t), Next(t + u), u)
  {
    if |t| > 0 {
      Tail(t, u);
    }
  }

  lemma PeekStable(t: seq<Token>, u: seq<Token>)
    ensures Stable(Peek(t), Peek(t + u), u)
  {
    if |t| > 0 {
      Tail(t, u);
    }
  }

  lemma NextExpectStable(t: seq<Token>, u: seq<Token>, kind: TokenType)
    ensures Stable(NextExpect(t, kind), NextExpect(t + u, kind), u)
  {
    if |t| > 0 {
      Tail(t, u);
    }
  }

  lemma NextIfTypeStable(kind: TokenType, t: seq<Token>, u: seq<Token>)
    ensures Stable(NextIfType(kind, t), NextIfType(kind, t + u), u)
  {
    if |t| > 0 {
      Tail(t, u);
    }
  }

  // ---------------------------------------------------------------------------
  // Names and attributes (lines 43-67)

  lemma {:induction false} QualifiedNameLoopStable(t: seq<Token>, u: seq<Token>, qual: string)
    ensures Stable(QualifiedNameLoop(t, qual), QualifiedNameLoop(t + u, qual), u)
    decreases |t|
  {
    if |t| > 0 {
      Tail(t, u);
      if IsNamePart(t[0]) {
        QualifiedNameLoopStable(t[1..], u, qual + t[0].slice);
      }
    }
  }

  lemma ParseQualifiedNameStable(t: seq<Token>, u: seq<Token>)
    ensures Stable(ParseQualifiedName(t), ParseQualifiedName(t + u), u)
  {
    QualifiedNameLoopStable(t, u, "");
  }

  lemma ParseMangleStable(t: seq<Token>, u: seq<Token>)
    ensures Stable(ParseMangle(t), ParseMangle(t + u), u)
  {
    NextExpectStable(t, u, ParenL);
    var q1 := NextExpect(t, ParenL);
    if q1.Ok? {
      NextExpectStable(q1.rest, u, String);
      var q2 := NextExpect(q1.rest, String);
      if q2.Ok? {
        NextExpectStable(q2.rest, u, ParenR);
        var q3 := NextExpect(q2.rest, ParenR);
        if q3.Ok? {
          NextExpectStable(q3.rest, u, AttrR);
        }
      }
    }
  }

  lemma ParseAttributeStable(t: seq<Token>, u: seq<Token>)
    ensures Stable(ParseAttribute(t), ParseAttribute(t + u), u)
  {
    NextExpectStable(t, u, Ident);
    if NextExpect(t, Ident).Ok? {
      ParseMangleStable(NextExpect(t, Ident).rest, u);
    }
  }

  // ---------------------------------------------------------------------------
  // Functions (lines 69-109)

  lemma {:induction false} ArgumentLoopStable(t: seq<Token>, u: seq<Token>, arg: string)
    ensures Stable(ArgumentLoop(t, arg), ArgumentLoop(t + u, arg), u)
    decreases |t|
  {
    if |t| > 0 {
      Tail(t, u);
      if t[0].kind != Comma && t[0].kind != ParenR {
        ArgumentLoopStable(t[1..], u, arg + t[0].slice);
      }
    }
  }

  lemma {:induction false} ArgumentsLoopStable(t: seq<Token>, u: seq<Token>, args: seq<string>)
    ensures Stable(ArgumentsLoop(t, args), ArgumentsLoop(t + u, args), u)
    decreases |t|
  {
    NextIfTypeStable(ParenR, t, u);
    if NextIfType(ParenR, t).Ok? && NextIfType(ParenR, t).value {
      var q1 := NextIfType(ParenR, t).rest;
      ArgumentLoopStable(q1, u, "");
      var a := ArgumentLoop(q1, "");
      if a.Ok? {
        ArgumentsLoopStable(a.rest, u, if |a.value| == 0 then args else args + [a.value]);
      }
    }
  }

  lemma BindSlotStable(t: seq<Token>, u: seq<Token>)
    ensures Stable(BindSlot(t), BindSlot(t + u), u)
  {
    if |t| > 0 {
      Tail(t, u);
    }
  }

  lemma {:induction false} BindsLoopStable(t: seq<Token>, u: seq<Token>, k: nat, binds: Slots)
    ensures Stable(BindsLoop(t, k, binds), BindsLoop(t + u, k, binds), u)
    decreases SlotCount - k
  {
    if k < SlotCount {
      BindSlotStable(t, u);
      var s := BindSlot(t);
      if s.Ok? {
        NextStable(s.rest, u);
        var n := Next(s.rest);
        if n.Ok? && n.value.kind == Comma {
          BindsLoopStable(n.rest, u, k + 1, binds[k := s.value]);
        }
      }
    }
  }

  lemma ParseParametersStable(t: seq<Token>, u: seq<Token>, f: Function)
    ensures Stable(ParseParameters(t, f), ParseParameters(t + u, f), u)
  {
    NextExpectStable(t, u, ParenL);
    if NextExpect(t, ParenL).Ok? {
      var q1 := NextExpect(t, ParenL).rest;
      ArgumentsLoopStable(q1, u, f.args);
      if ArgumentsLoop(q1, f.args).Ok? {
        NextIfTypeStable(Const, ArgumentsLoop(q1, f.args).rest, u);
      }
    }
  }

  lemma ParseFunctionStable(t: seq<Token>, u: seq<Token>, c: ClassValue, f: Function)
    ensures Stable(ParseFunction(t, c, f), ParseFunction(t + u, c, f), u)
  {
    ParseParametersStable(t, u, f);
    var p := ParseParameters(t, f);
    if p.Ok? {
      NextExpectStable(p.rest, u, Equal);
      if NextExpect(p.rest, Equal).Ok? {
        BindsLoopStable(NextExpect(p.rest, Equal).rest, u, 0, p.value.binds);
      }
    }
  }

  // ---------------------------------------------------------------------------
  // Data members (lines 111-150)

  lemma ParseArrayCountStable(t: seq<Token>, u: seq<Token>)
    ensures Stable(ParseArrayCount(t), ParseArrayCount(t + u), u)
  {
    NextExpectStable(t, u, Ident);
    if NextExpect(t, Ident).Ok? {
      NextExpectStable(NextExpect(t, Ident).rest, u, BrackR);
    }
  }

  lemma HardcodeSlotStable(t: seq<Token>, u: seq<Token>)
    ensures Stable(HardcodeSlot(t), HardcodeSlot(t + u), u)
  {
    NextStable(t, u);
  }

  lemma {:induction false} HardcodesLoopStable(t: seq<Token>, u: seq<Token>, k: nat, hardcodes: Slots)
    ensures Stable(HardcodesLoop(t, k, hardcodes), HardcodesLoop(t + u, k, hardcodes), u)
    decreases SlotCount - k
  {
    if k < SlotCount {
      HardcodeSlotStable(t, u);
      var s := HardcodeSlot(t);
      if s.Ok? {
        NextStable(s.rest, u);
        var n := Next(s.rest);
        if n.Ok? && n.value.kind == Comma {
          HardcodesLoopStable(n.rest, u, k + 1, hardcodes[k := s.value]);
        }
      }
    }
  }

  lemma ParseMemberCountStable(t: seq<Token>, u: seq<Token>)
    ensures Stable(ParseMemberCount(t), ParseMemberCount(t + u), u)
  {
    NextIfTypeStable(BrackL, t, u);
    if NextIfType(BrackL, t).Ok? {
      ParseArrayCountStable(NextIfType(BrackL, t).rest, u);
    }
  }

  lemma ParseMemberSlotsStable(t: seq<Token>, u: seq<Token>)
    ensures Stable(ParseMemberSlots(t), ParseMemberSlots(t + u), u)
  {
    NextIfTypeStable(Equal, t, u);
    if NextIfType(Equal, t).Ok? {
      var q1 := NextIfType(Equal, t).rest;
      HardcodesLoopStable(q1, u, 0, EmptySlots);
      NextExpectStable(q1, u, Semi);
    }
  }

  lemma ParseMemberStable(t: seq<Token>, u: seq<Token>, c: ClassValue, typeName: string, name: string)
    ensures Stable(ParseMember(t, c, typeName, name), ParseMember(t + u, c, typeName, name), u)
  {
    ParseMemberCountStable(t, u);
    if ParseMemberCount(t).Ok? {
      ParseMemberSlotsStable(ParseMemberCount(t).rest, u);
    }
  }

  // ---------------------------------------------------------------------------
  // Fields (lines 152-230)

  lemma ParseQualifiersStable(t: seq<Token>, u: seq<Token>)
    ensures Stable(ParseQualifiers(t), ParseQualifiers(t + u), u)
  {
    NextIfTypeStable(Virtual, t, u);
    var v := NextIfType(Virtual, t);
    if v.Ok? {
      NextIfTypeStable(Static, v.rest, u);
      var s := NextIfType(Static, v.rest);
      if v.value && s.Ok? && !s.value {
        NextIfTypeStable(Virtual, s.rest, u);
      }
    }
  }

  lemma {:induction false} TypeRunLoopStable(t: seq<Token>, u: seq<Token>, run: seq<Token>)
    ensures Stable(TypeRunLoop(t, run), TypeRunLoop(t + u, run), u)
    decreases |t|
  {
    if |t| > 0 {
      Tail(t, u);
      if InTypeRun(t[0]) {
        TypeRunLoopStable(t[1..], u, run + [t[0]]);
      }
    }
  }

  lemma ParseDeclaratorStable(t: seq<Token>, u: seq<Token>)
    ensures Stable(ParseDeclarator(t), ParseDeclarator(t + u), u)
  {
    TypeRunLoopStable(t, u, []);
  }

  lemma ParseFieldPrefixStable(t: seq<Token>, u: seq<Token>)
    ensures Stable(ParseFieldPrefix(t), ParseFieldPrefix(t + u), u)
  {
    NextIfTypeStable(AttrL, t, u);
    var a := NextIfType(AttrL, t);
    if a.Ok? {
      ParseAttributeStable(a.rest, u);
      var m: Parsed<string> := if a.value then Ok("", a.rest) else ParseAttribute(a.rest);
      if m.Ok? {
        ParseQualifiersStable(m.rest, u);
      }
    }
  }

  lemma ParseDeclaredFieldStable(t: seq<Token>, u: seq<Token>, c: ClassValue, mangle: string, isVirtual: bool, isStatic: bool)
    ensures Stable(ParseDeclaredField(t, c, mangle, isVirtual, isStatic), ParseDeclaredField(t + u, c, mangle, isVirtual, isStatic), u)
  {
    ParseDeclaratorStable(t, u);
    var d := ParseDeclarator(t);
    if d.Ok? {
      var (returnType, name) := d.value;
      Tail(d.rest, u);
      ParseFunctionStable(d.rest, u, c, Function(name, returnType, false, isVirtual, isStatic, mangle, [], EmptySlots));
      ParseMemberStable(d.rest, u, c, returnType, name);
    }
  }

  lemma ParseFieldStable(t: seq<Token>, u: seq<Token>, c: ClassValue)
    ensures Stable(ParseField(t, c), ParseField(t + u, c), u)
  {
    ParseFieldPrefixStable(t, u);
    var p := ParseFieldPrefix(t);
    if p.Ok? {
      var (mangle, isVirtual, isStatic) := p.value;
      if |p.rest| > 0 {
        Tail(p.rest, u);
        ParseDeclaredFieldStable(p.rest, u, c, mangle, isVirtual, isStatic);
      }
    }
  }

  // ---------------------------------------------------------------------------
  // Classes and programs (lines 232-269)

  lemma {:induction false} SuperclassesLoopStable(t: seq<Token>, u: seq<Token>, c: ClassValue)
    ensures Stable(SuperclassesLoop(t, c), SuperclassesLoop(t + u, c), u)
    decreases |t|
  {
    ParseQualifiedNameStable(t, u);
    var n := ParseQualifiedName(t);
    if n.Ok? {
      NextIfTypeStable(BraceL, n.rest, u);
      var b := NextIfType(BraceL, n.rest);
      if b.Ok? && b.value {
        NextExpectStable(b.rest, u, Comma);
        var m := NextExpect(b.rest, Comma);
        if m.Ok? {
          SuperclassesLoopStable(m.rest, u, c.AddSuperclass(n.value));
        }
      }
    }
  }

  lemma {:induction false} BodyLoopStable(t: seq<Token>, u: seq<Token>, c: ClassValue)
    ensures Stable(BodyLoop(t, c), BodyLoop(t + u, c), u)
    decreases |t|
  {
    NextIfTypeStable(BraceR, t, u);
    var b := NextIfType(BraceR, t);
    if b.Ok? && b.value {
      ParseFieldStable(b.rest, u, c);
      var f := ParseField(b.rest, c);
      if f.Ok? {
        BodyLoopStable(f.rest, u, f.value);
      }
    }
  }

  lemma ParseClassHeadStable(t: seq<Token>, u: seq<Token>, c: ClassValue)
    ensures Stable(ParseClassHead(t, c), ParseClassHead(t + u, c), u)
  {
    NextExpectStable(t, u, Class);
    var k := NextExpect(t, Class);
    if k.Ok? {
      ParseQualifiedNameStable(k.rest, u);
      var n := ParseQualifiedName(k.rest);
      if n.Ok? {
        NextIfTypeStable(Colon, n.rest, u);
        var col := NextIfType(Colon, n.rest);
        if col.Ok? {
          SuperclassesLoopStable(col.rest, u, c.(name := n.value));
          NextExpectStable(col.rest, u, BraceL);
        }
      }
    }
  }

  lemma ParseClassDefinitionStable(t: seq<Token>, u: seq<Token>)
    ensures Stable(ParseClassDefinition(t), ParseClassDefinition(t + u), u)
  {
    ParseClassHeadStable(t, u, EmptyClass(""));
    var h := ParseClassHead(t, EmptyClass(""));
    if h.Ok? {
      BodyLoopStable(h.rest, u, h.value);
    }
  }

  lemma ParseClassStable(t: seq<Token>, u: seq<Token>, classes: map<string, ClassValue>)
    ensures Stable(ParseClass(t, classes), ParseClass(t + u, classes), u)
  {
    ParseClassDefinitionStable(t, u);
  }

  /** An outcome that, extended by `u`, would leave fewer tokens than `u` holds
      can only be the end of input. */
  lemma StableCut<T>(short: Parsed<T>, long: Parsed<T>, u: seq<Token>)
    requires Stable(short, long, u) && long.Ok? && |long.rest| < |u|
    ensures short == Err(UnexpectedEndOfInput)
  {
  }

  lemma Split(q: seq<Token>, rest: seq<Token>, i: nat)
    requires i <= |q|
    ensures q[..i] + (q[i..] + rest) == q + rest
  {
    assert q == q[..i] + q[i..];
  }

  /** A class definition cut off before its end is the end of input. */
  lemma CutDefinition(q: seq<Token>, rest: seq<Token>, i: nat)
    requires ParseClassDefinition(q + rest).Ok? && ParseClassDefinition(q + rest).rest == rest
    requires i < |q|
    ensures ParseClassDefinition(q[..i]) == Err(UnexpectedEndOfInput)
  {
    var t, u := q[..i], q[i..] + rest;
    Split(q, rest, i);
    ParseClassDefinitionStable(t, u);
    StableCut(ParseClassDefinition(t), ParseClassDefinition(t + u), u);
  }

  /** A class cut off anywhere before the end of its definition, its closing
      `}` included, is the end of input, whatever was parsed before it. */
  lemma TruncatedClass(q: seq<Token>, rest: seq<Token>, i: nat, classes: map<string, ClassValue>)
    requires ParseClassDefinition(q + rest).Ok? && ParseClassDefinition(q + rest).rest == rest
    requires 0 < i < |q|
    ensures ProgramLoop(q[..i], classes) == Failure(UnexpectedEndOfInput)
    ensures ParseTokens(q[..i]) == Failure(UnexpectedEndOfInput)
  {
    CutDefinition(q, rest, i);
  }

  /** A program that parses, followed by more tokens, goes on from the classes
      it stored: parsing a concatenation parses its parts in turn. */
  lemma {:induction false} ProgramConcat(p: seq<Token>, t: seq<Token>, classes: map<string, ClassValue>)
    requires ProgramLoop(p, classes).Success?
    ensures ProgramLoop(p + t, classes) == ProgramLoop(t, ProgramLoop(p, classes).value)
    decreases |p|
  {
    if |p| == 0 {
      assert p + t == t;
    } else {
      ParseClassStable(p, t, classes);
      var c := ParseClass(p, classes);
      ProgramConcat(c.rest, t, c.value);
    }
  }

  /** So a program whose last class is cut off is the end of input. */
  lemma TruncatedProgram(p: seq<Token>, q: seq<Token>, rest: seq<Token>, i: nat)
    requires ParseTokens(p).Success?
    requires ParseClassDefinition(q + rest).Ok? && ParseClassDefinition(q + rest).rest == rest
    requires 0 < i < |q|
    ensures ParseTokens(p + q[..i]) == Failure(UnexpectedEndOfInput)
  {
    ProgramConcat(p, q[..i], map[]);
    TruncatedClass(q, rest, i, ProgramLoop(p, map[]).value);
  }
}
