/** The parser of src/parse.hpp as it runs: a token queue popped in place,
    classes filled in place, bind and hardcode slots written one at a time into slot
    values. Each method is proved to leave the queue, and to produce the
    result, that the matching function of module Grammar describes.

    Where the source calls `cacerr` and exits, a method returns `Failure`;
    `:-` passes such a failure straight up, as the exit would. */
module Parse {
  import opened Tokens
  import opened Ast
  import opened Grammar

  /** A method's result read against the queue it left. */
  function Returned<T>(r: Result<T>, tokens: seq<Token>): Parsed<T>
  {
    match r
    case Success(v) => Ok(v, tokens)
    case Failure(e) => Err(e)
  }

  /** A state-changing method's outcome, read against the state it left. */
  function Updated<T>(r: Result<()>, v: T, tokens: seq<Token>): Parsed<T>
  {
    match r
    case Success(_) => Ok(v, tokens)
    case Failure(e) => Err(e)
  }

  /** The `Tokens` queue of the source and the routines that pop it. */
  class Parser {
    /** The queued tokens, front first. */
    var tokens: seq<Token>

    constructor ()
      ensures tokens == []
    {
      tokens := [];
    }

    method Push(t: Token)
      modifies this
      ensures tokens == old(tokens) + [t]
    {
      tokens := tokens + [t];
    }

    // -------------------------------------------------------------------------
    // Cursor (parse.hpp lines 10-41)

    method Next() returns (r: Result<Token>)
      modifies this
      ensures Returned(r, tokens) == Grammar.Next(old(tokens))
    {
      if |tokens| == 0 {
        return Failure(UnexpectedEndOfInput);
      }
      r := Success(tokens[0]);
      tokens := tokens[1..];
    }

    method Peek() returns (r: Result<Token>)
      ensures Returned(r, tokens) == Grammar.Peek(tokens)
    {
      if |tokens| == 0 {
        return Failure(UnexpectedEndOfInput);
      }
      r := Success(tokens[0]);
    }

    method NextExpect(kind: TokenType) returns (r: Result<Token>)
      modifies this
      ensures Returned(r, tokens) == Grammar.NextExpect(old(tokens), kind)
    {
      var t :- Next();
      if t.kind == kind {
        return Success(t);
      }
      // the source pops one more token only to quote it in the message
      var diagnostic := Next();
      if diagnostic.Failure? {
        return Failure(UnexpectedEndOfInput);
      }
      r := Failure(UnexpectedToken(kind));
    }

    /** Answers `false` when the front token has the tag and was consumed. */
    method NextIfType(kind: TokenType) returns (r: Result<bool>)
      modifies this
      ensures Returned(r, tokens) == Grammar.NextIfType(kind, old(tokens))
    {
      var t :- Peek();
      if t.kind == kind {
        var _ := Next();
        return Success(false);
      }
      r := Success(true);
    }

    // -------------------------------------------------------------------------
    // Qualified names and attributes (lines 43-67)

    method ParseQualifiedName() returns (r: Result<string>)
      modifies this
      ensures Returned(r, tokens) == Grammar.ParseQualifiedName(old(tokens))
    {
      var qual := "";
      while true
        invariant QualifiedNameLoop(old(tokens), "") == QualifiedNameLoop(tokens, qual)
        decreases |tokens|
      {
        var t :- Peek();
        if !IsNamePart(t) {
          break;
        }
        var name := Next();
        qual := qual + name.value.slice;
      }
      if |qual| == 0 {
        return Failure(ExpectedIdentifier);
      }
      r := Success(qual);
    }

    method ParseAttribute() returns (r: Result<string>)
      modifies this
      ensures Returned(r, tokens) == Grammar.ParseAttribute(old(tokens))
    {
      var attribute :- NextExpect(Ident);
      if attribute.slice != "mangle" {
        return Failure(UnsupportedAttribute);
      }
      var _ :- NextExpect(ParenL);
      var mangle :- NextExpect(String);
      var _ :- NextExpect(ParenR);
      var _ :- NextExpect(AttrR);
      r := Success(mangle.slice);
    }

    // -------------------------------------------------------------------------
    // Functions (lines 69-109)

    /** One argument: the text up to the next `,` (consumed) or `)` (not consumed). */
    method ParseArgument() returns (r: Result<string>)
      modifies this
      ensures Returned(r, tokens) == ArgumentLoop(old(tokens), "")
    {
      var arg := "";
      while true
        invariant ArgumentLoop(old(tokens), "") == ArgumentLoop(tokens, arg)
        decreases |tokens|
      {
        var noComma :- NextIfType(Comma);
        if !noComma {
          break;
        }
        var t := Peek();
        if t.value.kind == ParenR {
          break;
        }
        var piece := Next();
        arg := arg + piece.value.slice;
      }
      r := Success(arg);
    }

    /** Arguments up to and including `)`, appended to `args`. */
    method ParseArguments(args0: seq<string>) returns (r: Result<seq<string>>)
      modifies this
      ensures Returned(r, tokens) == ArgumentsLoop(old(tokens), args0)
    {
      var args := args0;
      while true
        invariant ArgumentsLoop(old(tokens), args0) == ArgumentsLoop(tokens, args)
        decreases |tokens|
      {
        var noParen :- NextIfType(ParenR);
        if !noParen {
          break;
        }
        var arg :- ParseArgument();
        if |arg| == 0 {
          continue;
        }
        args := args + [arg];
      }
      r := Success(args);
    }

    /** One bind slot; a comma is left for the separator. */
    method ParseBindSlot() returns (r: Result<string>)
      modifies this
      ensures Returned(r, tokens) == BindSlot(old(tokens))
    {
      var t :- Peek();
      if t.kind == Comma {
        r := Success("");
      } else if t.kind == Address {
        var _ := Next();
        r := Success(t.slice);
      } else {
        r := Failure(ExpectedAddress);
      }
    }

    /** The bind slots after `=`, written one by one into a copy of `initial`. */
    method ParseBinds(initial: Slots) returns (r: Result<Slots>)
      modifies this
      ensures Returned(r, tokens) == BindsLoop(old(tokens), 0, initial)
    {
      var binds := initial;
      var k := 0;
      while true
        invariant 0 <= k <= SlotCount
        invariant BindsLoop(old(tokens), 0, initial) == BindsLoop(tokens, k, binds)
        decreases SlotCount - k
      {
        if k == SlotCount {
          return Failure(TooManySlots);
        }
        var slot :- ParseBindSlot();
        binds := binds[k := slot];
        var separator :- Next();
        if separator.kind == Semi {
          break;
        }
        if separator.kind != Comma {
          return Failure(ExpectedSeparator);
        }
        k := k + 1;
      }
      r := Success(binds);
    }

    /** The parameter list and the `const` after it, recorded in `f`. */
    method ParseParameters(f: Function) returns (r: Result<Function>)
      modifies this
      ensures Returned(r, tokens) == Grammar.ParseParameters(old(tokens), f)
    {
      var myFunction := f;
      var _ :- NextExpect(ParenL);
      var args :- ParseArguments(myFunction.args);
      myFunction := myFunction.(args := args);
      var noConst :- NextIfType(Const);
      if !noConst {
        myFunction := myFunction.(isConst := true);
      }
      r := Success(myFunction);
    }

    /** `parseFunction`: parameters, `const`, `=` and binds, then the function
        is appended to `c` and recorded in its in_order list. */
    method ParseFunction(c: ClassDefinition, f: Function) returns (r: Result<()>)
      requires c.Valid()
      modifies this, c
      ensures c.Valid()
      ensures Updated(r, c.Value(), tokens) == Grammar.ParseFunction(old(tokens), old(c.Value()), f)
    {
      var myFunction :- ParseParameters(f);
      var _ :- NextExpect(Equal);
      var binds :- ParseBinds(myFunction.binds);
      myFunction := myFunction.(binds := binds);
      c.AddFunction(myFunction);
      r := Success(());
    }

    // -------------------------------------------------------------------------
    // Data members (lines 111-150)

    /** One hardcode slot; a comma is consumed as the empty slot. */
    method ParseHardcodeSlot() returns (r: Result<string>)
      modifies this
      ensures Returned(r, tokens) == HardcodeSlot(old(tokens))
    {
      var t :- Next();
      if t.kind == Comma {
        r := Success("");
      } else if t.kind == Address {
        r := Success(t.slice);
      } else {
        r := Failure(ExpectedAddress);
      }
    }

    /** The hardcode slots after `=`, written one by one into a copy of `initial`. */
    method ParseHardcodes(initial: Slots) returns (r: Result<Slots>)
      modifies this
      ensures Returned(r, tokens) == HardcodesLoop(old(tokens), 0, initial)
    {
      var hardcodes := initial;
      var k := 0;
      while true
        invariant 0 <= k <= SlotCount
        invariant HardcodesLoop(old(tokens), 0, initial) == HardcodesLoop(tokens, k, hardcodes)
        decreases SlotCount - k
      {
        if k == SlotCount {
          return Failure(TooManySlots);
        }
        var slot :- ParseHardcodeSlot();
        hardcodes := hardcodes[k := slot];
        var separator :- Next();
        if separator.kind == Semi {
          break;
        }
        if separator.kind != Comma {
          return Failure(ExpectedSeparator);
        }
        k := k + 1;
      }
      r := Success(hardcodes);
    }

    /** The element count: 1, or the digits between `[` and `]`. */
    method ParseMemberCount() returns (r: Result<nat>)
      modifies this
      ensures Returned(r, tokens) == Grammar.ParseMemberCount(old(tokens))
    {
      var count := 1;
      var noBracket :- NextIfType(BrackL);
      if !noBracket {
        var number :- NextExpect(Ident);
        if !IsDigits(number.slice) {
          return Failure(ExpectedNumber);
        }
        count := DecimalValue(number.slice);
        var _ :- NextExpect(BrackR);
      }
      r := Success(count);
    }

    /** Hardcodes after `=`, or a bare `;`. */
    method ParseMemberSlots() returns (r: Result<Slots>)
      modifies this
      ensures Returned(r, tokens) == Grammar.ParseMemberSlots(old(tokens))
    {
      var noEqual :- NextIfType(Equal);
      if !noEqual {
        r := ParseHardcodes(EmptySlots);
      } else {
        var _ :- NextExpect(Semi);
        r := Success(EmptySlots);
      }
    }

    /** `parseMember`: optional `[N]`, then hardcodes after `=` or a bare `;`;
        the member is appended to `c` and recorded in its in_order list. */
    method ParseMember(c: ClassDefinition, typeName: string, name: string) returns (r: Result<()>)
      requires c.Valid()
      modifies this, c
      ensures c.Valid()
      ensures Updated(r, c.Value(), tokens) == Grammar.ParseMember(old(tokens), old(c.Value()), typeName, name)
    {
      var count :- ParseMemberCount();
      var hardcodes :- ParseMemberSlots();
      c.AddMember(Member(typeName, name, count, hardcodes));
      r := Success(());
    }

    // -------------------------------------------------------------------------
    // Fields (lines 152-230)

    /** `virtual` and `static` in either order, each at most once: (virtual, static). */
    method ParseQualifiers() returns (r: Result<(bool, bool)>)
      modifies this
      ensures Returned(r, tokens) == Grammar.ParseQualifiers(old(tokens))
    {
      var virt, stat := false, false;
      var noVirtual :- NextIfType(Virtual);
      if !noVirtual {
        virt := true;
        var noStatic :- NextIfType(Static);
        if !noStatic {
          stat := true;
        }
      } else {
        // the queue is not empty here, so this cannot fail
        var noStatic := NextIfType(Static);
        if !noStatic.value {
          stat := true;
          var noVirtual2 :- NextIfType(Virtual);
          if !noVirtual2 {
            virt := true;
          }
        }
      }
      r := Success((virt, stat));
    }

    /** The greedy type-and-name run and its split into (type text, name). */
    method ParseDeclarator() returns (r: Result<(string, string)>)
      modifies this
      ensures Returned(r, tokens) == Grammar.ParseDeclarator(old(tokens))
    {
      var run: seq<Token> := [];
      while true
        invariant TypeRunLoop(old(tokens), []) == TypeRunLoop(tokens, run)
        decreases |tokens|
      {
        var t :- Peek();
        if !InTypeRun(t) {
          break;
        }
        run := run + [t];
        var _ := Next();
      }
      if |run| == 0 || run[|run| - 1].kind != Ident {
        return Failure(ExpectedIdentifier);
      }
      var name := run[|run| - 1].slice;
      var typeTokens := run[..|run| - 1];
      var returnType := "";
      for i := 0 to |typeTokens|
        invariant returnType == Concat(typeTokens[..i])
      {
        assert typeTokens[..i + 1][..i] == typeTokens[..i];
        returnType := returnType + typeTokens[i].slice;
      }
      assert typeTokens[..|typeTokens|] == typeTokens;
      r := Success((returnType, name));
    }

    /** The optional `mangle` attribute and the qualifiers: (mangle, virtual, static). */
    method ParseFieldPrefix() returns (r: Result<(string, bool, bool)>)
      modifies this
      ensures Returned(r, tokens) == Grammar.ParseFieldPrefix(old(tokens))
    {
      var mangle := "";
      var noAttribute :- NextIfType(AttrL);
      if !noAttribute {
        mangle :- ParseAttribute();
      }
      var qualifiers :- ParseQualifiers();
      r := Success((mangle, qualifiers.0, qualifiers.1));
    }

    /** A declared function or data member after its prefix, appended to `c`. */
    method ParseDeclaredField(c: ClassDefinition, mangle: string, isVirtual: bool, isStatic: bool) returns (r: Result<()>)
      requires c.Valid()
      modifies this, c
      ensures c.Valid()
      ensures Updated(r, c.Value(), tokens) == Grammar.ParseDeclaredField(old(tokens), old(c.Value()), mangle, isVirtual, isStatic)
    {
      var declarator :- ParseDeclarator();
      var (returnType, name) := declarator;
      // the declarator stops in front of a token, so this cannot fail
      var t := Peek();
      if t.value.kind == ParenL {
        r := ParseFunction(c, Function(name, returnType, false, isVirtual, isStatic, mangle, [], EmptySlots));
        return;
      }
      if isVirtual {
        return Failure(UnexpectedQualifier(Virtual));
      }
      if isStatic {
        return Failure(UnexpectedQualifier(Static));
      }
      r := ParseMember(c, returnType, name);
    }

    /** `parseField`: one function, member or inline block, appended to `c`. */
    method ParseField(c: ClassDefinition) returns (r: Result<()>)
      requires c.Valid()
      modifies this, c
      ensures c.Valid()
      ensures Updated(r, c.Value(), tokens) == Grammar.ParseField(old(tokens), old(c.Value()))
    {
      var prefix :- ParseFieldPrefix();
      var (mangle, isVirtual, isStatic) := prefix;
      var t :- Peek();
      if t.kind == InlineExpr {
        // a token was peeked, so this cannot fail
        var inline := Next();
        c.AddInline(Inline(inline.value.slice));
        return Success(());
      }
      r := ParseDeclaredField(c, mangle, isVirtual, isStatic);
    }

    // -------------------------------------------------------------------------
    // Classes (lines 232-254)

    /** The superclass list after `:`, up to and including `{`. */
    method ParseSuperclasses(c: ClassDefinition) returns (r: Result<()>)
      requires c.Valid()
      modifies this, c
      ensures c.Valid()
      ensures Updated(r, c.Value(), tokens) == SuperclassesLoop(old(tokens), old(c.Value()))
    {
      while true
        invariant SuperclassesLoop(old(tokens), old(c.Value())) == SuperclassesLoop(tokens, c.Value())
        invariant c.Valid()
        decreases |tokens|
      {
        var superclass :- ParseQualifiedName();
        c.AddSuperclass(superclass);
        var noBrace :- NextIfType(BraceL);
        if !noBrace {
          break;
        }
        var _ :- NextExpect(Comma);
      }
      r := Success(());
    }

    /** Fields up to and including `}`. */
    method ParseBody(c: ClassDefinition) returns (r: Result<()>)
      requires c.Valid()
      modifies this, c
      ensures c.Valid()
      ensures Updated(r, c.Value(), tokens) == BodyLoop(old(tokens), old(c.Value()))
    {
      while true
        invariant BodyLoop(old(tokens), old(c.Value())) == BodyLoop(tokens, c.Value())
        invariant c.Valid()
        decreases |tokens|
      {
        var noBrace :- NextIfType(BraceR);
        if !noBrace {
          break;
        }
        var _ :- ParseField(c);
      }
      r := Success(());
    }

    /** `class`, the name and the superclass list, up to and including `{`. */
    method ParseClassHead(c: ClassDefinition) returns (r: Result<()>)
      requires c.Valid()
      modifies this, c
      ensures c.Valid()
      ensures Updated(r, c.Value(), tokens) == Grammar.ParseClassHead(old(tokens), old(c.Value()))
    {
      var _ :- NextExpect(Class);
      var name :- ParseQualifiedName();
      c.name := name;
      assert c.Value() == old(c.Value()).(name := name);
      var noColon :- NextIfType(Colon);
      if !noColon {
        r := ParseSuperclasses(c);
      } else {
        var _ :- NextExpect(BraceL);
        r := Success(());
      }
    }

    /** `parseClass`: the finished class is stored in `root` under its name,
        replacing any class stored there before; the object's invariant makes
        the stored copy well formed. */
    method ParseClass(root: Root) returns (r: Result<()>)
      modifies this, root
      ensures Updated(r, root.classes, tokens) == Grammar.ParseClass(old(tokens), old(root.classes))
      ensures old(AllWf(root.classes)) ==> AllWf(root.classes)
    {
      var myClass := new ClassDefinition();
      var _ :- ParseClassHead(myClass);
      var _ :- ParseBody(myClass);
      ghost var before := root.classes;
      root.classes := root.classes[myClass.name := myClass.Value()];
      assert AllWf(before) ==> AllWf(root.classes) by {
        assert myClass.Value().Wf();
      }
      r := Success(());
    }
  }

  /** Every class stored in `classes` keeps the in_order invariant. */
  ghost predicate AllWf(classes: map<string, ClassValue>)
  {
    forall name :: name in classes ==> classes[name].Wf()
  }

  /** `parseTokens`: queue the tokens, then parse classes until the queue is
      empty; every class of the result keeps the in_order invariant. */
  method ParseTokens(ts: seq<Token>) returns (r: Result<map<string, ClassValue>>)
    ensures r == Grammar.ParseTokens(ts)
    ensures r.Success? ==> AllWf(r.value)
  {
    var root := new Root();
    var tokens := new Parser();
    for i := 0 to |ts|
      invariant tokens.tokens == ts[..i] && root.classes == map[]
    {
      tokens.Push(ts[i]);
    }
    assert ts[..|ts|] == ts;
    while |tokens.tokens| > 0
      invariant Grammar.ParseTokens(ts) == ProgramLoop(tokens.tokens, root.classes)
      invariant AllWf(root.classes)
      decreases |tokens.tokens|
    {
      var _ :- tokens.ParseClass(root);
    }
    r := Success(root.classes);
  }
}
