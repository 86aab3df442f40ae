/** The grammar of src/parse.hpp as functions over the remaining token queue.

    Each routine of the source has a function here that takes the queue it
    starts from and returns what it produced together with the queue it
    leaves, or the error that aborts the parse. Every loop of the source is a
    function in accumulator form whose parameters are the loop's variables,
    so that the imperative parser in module Parse can be proved equal to these
    functions, and the lemmas in FieldProperties, ClassProperties and
    Truncation state what they mean. */
module Grammar {
  import opened Tokens
  import opened Ast

  /** The outcome of one parsing step: a value and the tokens still queued, or
      the error that aborts the whole parse. */
  datatype Parsed<T> = Ok(value: T, rest: seq<Token>) | Err(error: ParseError)
  {
    predicate IsFailure() { Err? }

    function PropagateFailure<U>(): Parsed<U>
      requires Err?
    {
      Err(error)
    }

    function Extract(): (T, seq<Token>)
      requires Ok?
    {
      (value, rest)
    }
  }

  /** The outcome of a whole parse. */
  datatype Result<T> = Success(value: T) | Failure(error: ParseError)
  {
    predicate IsFailure() { Failure? }

    function PropagateFailure<U>(): Result<U>
      requires Failure?
    {
      Failure(error)
    }

    function Extract(): T
      requires Success?
    {
      value
    }
  }

  // ---------------------------------------------------------------------------
  // Token cursor (parse.hpp lines 10-41)

  function Next(q: seq<Token>): (r: Parsed<Token>)
    ensures r.Err? <==> q == []
    ensures r.Ok? ==> r.value == q[0] && r.rest == q[1..]
  {
    if |q| == 0 then Err(UnexpectedEndOfInput) else Ok(q[0], q[1..])
  }

  function Peek(q: seq<Token>): (r: Parsed<Token>)
    ensures r.Err? <==> q == []
    ensures r.Ok? ==> r.rest == q && r.value == q[0]
  {
    if |q| == 0 then Err(UnexpectedEndOfInput) else Ok(q[0], q)
  }

  /** On a mismatch the source pops one more token to quote it in the message,
      so a mismatch on the last queued token is reported as the end of input. */
  function NextExpect(q: seq<Token>, kind: TokenType): (r: Parsed<Token>)
    ensures r.Ok? <==> q != [] && q[0].kind == kind
    ensures r.Ok? ==> r.value == q[0] && r.rest == q[1..]
    ensures r.Err? ==> r.error == if |q| <= 1 then UnexpectedEndOfInput else UnexpectedToken(kind)
  {
    if |q| == 0 then Err(UnexpectedEndOfInput)
    else if q[0].kind == kind then Ok(q[0], q[1..])
    else if |q| == 1 then Err(UnexpectedEndOfInput)
    else Err(UnexpectedToken(kind))
  }

  /** As in the source, the answer is inverted: `false` means the front token
      had the tag and was consumed, `true` that nothing was consumed. */
  function NextIfType(kind: TokenType, q: seq<Token>): (r: Parsed<bool>)
    ensures r.Err? <==> q == []
    ensures r.Ok? ==> (!r.value <==> q[0].kind == kind)
    ensures r.Ok? ==> r.rest == if r.value then q else q[1..]
  {
    if |q| == 0 then Err(UnexpectedEndOfInput)
    else if q[0].kind == kind then Ok(false, q[1..])
    else Ok(true, q)
  }

  // ---------------------------------------------------------------------------
  // Qualified names and attributes (lines 43-67)

  predicate IsNamePart(t: Token)
  {
    t.kind == Ident || t.kind == Qualifier
  }

  /** The loop of `parseQualifiedName`, `qual` being the text so far. */
  function QualifiedNameLoop(q: seq<Token>, qual: string): (r: Parsed<string>)
    ensures r.Ok? ==> |r.rest| <= |q| && (|r.rest| == |q| ==> r.value == qual)
    decreases |q|
  {
    if |q| == 0 then Err(UnexpectedEndOfInput)
    else if IsNamePart(q[0]) then QualifiedNameLoop(q[1..], qual + q[0].slice)
    else Ok(qual, q)
  }

  function ParseQualifiedName(q: seq<Token>): (r: Parsed<string>)
    ensures r.Ok? ==> |r.rest| < |q|
  {
    var (qual, rest) :- QualifiedNameLoop(q, "");
    if |qual| == 0 then Err(ExpectedIdentifier) else Ok(qual, rest)
  }

  /** `[[` has been consumed; the only attribute is `mangle("...")`, whose
      string is the result. */
  function ParseAttribute(q: seq<Token>): (r: Parsed<string>)
    ensures r.Ok? ==> |r.rest| < |q|
  {
    var (attribute, q1) :- NextExpect(q, Ident);
    if attribute.slice != "mangle" then Err(UnsupportedAttribute) else ParseMangle(q1)
  }

  /** The rest of a `mangle` attribute: `(`, the string, `)` and `]]`; the
      string's slice is the result. */
  function ParseMangle(q: seq<Token>): (r: Parsed<string>)
    ensures r.Ok? ==> |r.rest| < |q|
  {
    var (_, q1) :- NextExpect(q, ParenL);
    var (mangle, q2) :- NextExpect(q1, String);
    var (_, q3) :- NextExpect(q2, ParenR);
    var (_, q4) :- NextExpect(q3, AttrR);
    Ok(mangle.slice, q4)
  }

  // ---------------------------------------------------------------------------
  // Functions (lines 69-109)

  /** The inner loop of the argument list: `arg` collects the text up to the
      next `,` (consumed) or `)` (left in the queue). */
  function ArgumentLoop(q: seq<Token>, arg: string): (r: Parsed<string>)
    ensures r.Ok? ==> |r.rest| <= |q|
    ensures r.Ok? && |q| > 0 && q[0].kind != ParenR ==> |r.rest| < |q|
    decreases |q|
  {
    if |q| == 0 then Err(UnexpectedEndOfInput)
    else if q[0].kind == Comma then Ok(arg, q[1..])
    else if q[0].kind == ParenR then Ok(arg, q)
    else ArgumentLoop(q[1..], arg + q[0].slice)
  }

  /** The outer loop: runs until `)` is consumed; an empty text adds nothing. */
  function ArgumentsLoop(q: seq<Token>, args: seq<string>): (r: Parsed<seq<string>>)
    ensures r.Ok? ==> |r.rest| < |q|
    decreases |q|
  {
    var (noParen, q1) :- NextIfType(ParenR, q);
    if !noParen then Ok(args, q1)
    else
      var (arg, q2) :- ArgumentLoop(q1, "");
      ArgumentsLoop(q2, if |arg| == 0 then args else args + [arg])
  }

  /** One bind slot: an address, which is consumed, or a comma, which is left
      in the queue for the separator and stands for an empty slot. */
  function BindSlot(q: seq<Token>): (r: Parsed<string>)
    ensures r.Ok? ==> |r.rest| <= |q|
  {
    var (t, _) :- Peek(q);
    if t.kind == Comma then Ok("", q)
    else if t.kind == Address then Ok(t.slice, q[1..])
    else Err(ExpectedAddress)
  }

  /** Bind slot `k` and the ones after it, each followed by `,` or a final `;`. */
  function BindsLoop(q: seq<Token>, k: nat, binds: Slots): (r: Parsed<Slots>)
    ensures r.Ok? ==> |r.rest| < |q|
    decreases SlotCount - k
  {
    if k >= SlotCount then Err(TooManySlots)
    else
      var (slot, q1) :- BindSlot(q);
      var binds1: Slots := binds[k := slot];
      var (separator, q2) :- Next(q1);
      if separator.kind == Semi then Ok(binds1, q2)
      else if separator.kind != Comma then Err(ExpectedSeparator)
      else BindsLoop(q2, k + 1, binds1)
  }

  /** The parameter list and the `const` after it, recorded in `f`. */
  function ParseParameters(q: seq<Token>, f: Function): (r: Parsed<Function>)
    ensures r.Ok? ==> |r.rest| < |q|
  {
    var (_, q1) :- NextExpect(q, ParenL);
    var (args, q2) :- ArgumentsLoop(q1, f.args);
    var (noConst, q3) :- NextIfType(Const, q2);
    Ok(f.(args := args, isConst := if !noConst then true else f.isConst), q3)
  }

  /** `parseFunction`: `f` holds the name, type, qualifiers and mangle parsed
      before; the finished function is appended to class `c`. */
  function ParseFunction(q: seq<Token>, c: ClassValue, f: Function): (r: Parsed<ClassValue>)
    ensures r.Ok? ==> |r.rest| < |q|
  {
    var (f1, q1) :- ParseParameters(q, f);
    var (_, q2) :- NextExpect(q1, Equal);
    var (binds, q3) :- BindsLoop(q2, 0, f1.binds);
    Ok(c.AddFunction(f1.(binds := binds)), q3)
  }

  // ---------------------------------------------------------------------------
  // Data members (lines 111-150)

  predicate IsDigit(ch: char)
  {
    '0' <= ch <= '9'
  }

  predicate IsDigits(s: string)
  {
    forall i :: 0 <= i < |s| ==> IsDigit(s[i])
  }

  /** The decimal value of a digit string, as `strtoll(s, NULL, 10)` reads it
      when no overflow occurs; the empty string reads as 0. */
  function DecimalValue(s: string): (n: nat)
    requires IsDigits(s)
    ensures n == 0 <==> forall i :: 0 <= i < |s| ==> s[i] == '0'
  {
    if |s| == 0 then 0
    else DecimalValue(s[..|s| - 1]) * 10 + (s[|s| - 1] as int - '0' as int)
  }

  /** `[` has been consumed: a digit-only identifier and `]`. */
  function ParseArrayCount(q: seq<Token>): (r: Parsed<nat>)
    ensures r.Ok? ==> |r.rest| < |q|
  {
    var (number, q1) :- NextExpect(q, Ident);
    if !IsDigits(number.slice) then Err(ExpectedNumber)
    else
      var (_, q2) :- NextExpect(q1, BrackR);
      Ok(DecimalValue(number.slice), q2)
  }

  /** One hardcode slot: an address, or a comma standing for an empty slot.
      Unlike a bind slot, the comma is consumed, so a separator follows it. */
  function HardcodeSlot(q: seq<Token>): (r: Parsed<string>)
    ensures r.Ok? ==> |r.rest| < |q|
  {
    var (t, q1) :- Next(q);
    if t.kind == Comma then Ok("", q1)
    else if t.kind == Address then Ok(t.slice, q1)
    else Err(ExpectedAddress)
  }

  /** Hardcode slot `k` and the ones after it, each followed by `,` or a final `;`. */
  function HardcodesLoop(q: seq<Token>, k: nat, hardcodes: Slots): (r: Parsed<Slots>)
    ensures r.Ok? ==> |r.rest| < |q|
    decreases SlotCount - k
  {
    if k >= SlotCount then Err(TooManySlots)
    else
      var (slot, q1) :- HardcodeSlot(q);
      var hardcodes1: Slots := hardcodes[k := slot];
      var (separator, q2) :- Next(q1);
      if separator.kind == Semi then Ok(hardcodes1, q2)
      else if separator.kind != Comma then Err(ExpectedSeparator)
      else HardcodesLoop(q2, k + 1, hardcodes1)
  }

  /** Without `=`, a member ends at `;` with no hardcodes. */
  function ParseMemberEnd(q: seq<Token>): (r: Parsed<Slots>)
    ensures r.Ok? ==> |r.rest| < |q|
  {
    var (_, q1) :- NextExpect(q, Semi);
    Ok(EmptySlots, q1)
  }

  /** The element count: 1, or the bracketed number when `[` follows the name. */
  function ParseMemberCount(q: seq<Token>): (r: Parsed<nat>)
    ensures r.Ok? ==> |r.rest| <= |q|
  {
    var (noBracket, q1) :- NextIfType(BrackL, q);
    if noBracket then Ok(1, q1) else ParseArrayCount(q1)
  }

  /** Hardcodes after `=`, or none and a bare `;`. */
  function ParseMemberSlots(q: seq<Token>): (r: Parsed<Slots>)
    ensures r.Ok? ==> |r.rest| < |q|
  {
    var (noEqual, q1) :- NextIfType(Equal, q);
    if !noEqual then HardcodesLoop(q1, 0, EmptySlots) else ParseMemberEnd(q1)
  }

  /** `parseMember`: the finished member is appended to class `c`. */
  function ParseMember(q: seq<Token>, c: ClassValue, typeName: string, name: string): (r: Parsed<ClassValue>)
    ensures r.Ok? ==> |r.rest| < |q|
  {
    var (count, q1) :- ParseMemberCount(q);
    var (hardcodes, q2) :- ParseMemberSlots(q1);
    Ok(c.AddMember(Member(typeName, name, count, hardcodes)), q2)
  }

  // ---------------------------------------------------------------------------
  // Fields (lines 152-230)

  /** The `virtual`/`static` prefix of a field, as the pair (virtual, static). */
  function ParseQualifiers(q: seq<Token>): (r: Parsed<(bool, bool)>)
    ensures r.Ok? ==> |r.rest| <= |q|
  {
    var (noVirtual, q1) :- NextIfType(Virtual, q);
    if !noVirtual then
      var (noStatic, q2) :- NextIfType(Static, q1);
      Ok((true, !noStatic), q2)
    else
      // nothing was consumed, so the queue is not empty
      match NextIfType(Static, q1)
      case Ok(noStatic, q2) =>
        if !noStatic then
          var (noVirtual2, q3) :- NextIfType(Virtual, q2);
          Ok((!noVirtual2, true), q3)
        else Ok((false, false), q2)
  }

  /** The tags that may make up a declared type and name. */
  predicate InTypeRun(t: Token)
  {
    t.kind in {Star, Amp, Ident, Const, TemplateExpr, Qualifier, Dtor}
  }

  /** The greedy loop of `parseField` that collects the type-and-name run. */
  function TypeRunLoop(q: seq<Token>, run: seq<Token>): (r: Parsed<seq<Token>>)
    ensures r.Ok? ==> |r.rest| + |r.value| == |q| + |run|
    ensures r.Ok? ==> r.value + r.rest == run + q
    ensures r.Ok? ==> |r.rest| > 0 && !InTypeRun(r.rest[0])
    decreases |q|
  {
    if |q| == 0 then Err(UnexpectedEndOfInput)
    else if InTypeRun(q[0]) then TypeRunLoop(q[1..], run + [q[0]])
    else Ok(run, q)
  }

  /** The slices of `ts` joined in order. */
  function Concat(ts: seq<Token>): string
  {
    if |ts| == 0 then "" else Concat(ts[..|ts| - 1]) + ts[|ts| - 1].slice
  }

  /** The declared type text and name, as the pair (type, name). */
  function ParseDeclarator(q: seq<Token>): (r: Parsed<(string, string)>)
    ensures r.Ok? ==> |r.rest| < |q|
    ensures r.Ok? ==> |r.rest| > 0 && !InTypeRun(r.rest[0])
  {
    var (run, q1) :- TypeRunLoop(q, []);
    if |run| == 0 || run[|run| - 1].kind != Ident then Err(ExpectedIdentifier)
    else Ok((Concat(run[..|run| - 1]), run[|run| - 1].slice), q1)
  }

  /** The optional `mangle` attribute and the qualifiers in front of a field,
      as (mangle, virtual, static). */
  function ParseFieldPrefix(q: seq<Token>): (r: Parsed<(string, bool, bool)>)
    ensures r.Ok? ==> |r.rest| <= |q|
  {
    var (noAttribute, q1) :- NextIfType(AttrL, q);
    var (mangle, q2) :- if noAttribute then Ok("", q1) else ParseAttribute(q1);
    var (qualifiers, q3) :- ParseQualifiers(q2);
    Ok((mangle, qualifiers.0, qualifiers.1), q3)
  }

  /** A declared function or data member, after its prefix. */
  function ParseDeclaredField(q: seq<Token>, c: ClassValue, mangle: string, isVirtual: bool, isStatic: bool): (r: Parsed<ClassValue>)
    ensures r.Ok? ==> |r.rest| < |q|
  {
    var (declarator, q1) :- ParseDeclarator(q);
    var (returnType, name) := declarator;
    // the declarator stops in front of a token, so the queue is not empty
    match Peek(q1)
    case Ok(t, _) =>
      if t.kind == ParenL then
        ParseFunction(q1, c, Function(name, returnType, false, isVirtual, isStatic, mangle, [], EmptySlots))
      else if isVirtual then Err(UnexpectedQualifier(Virtual))
      else if isStatic then Err(UnexpectedQualifier(Static))
      else ParseMember(q1, c, returnType, name)
  }

  /** `parseField`: one entry of a class body, appended to class `c`. */
  function ParseField(q: seq<Token>, c: ClassValue): (r: Parsed<ClassValue>)
    ensures r.Ok? ==> |r.rest| < |q|
  {
    var (prefix, q1) :- ParseFieldPrefix(q);
    var (mangle, isVirtual, isStatic) := prefix;
    var (t, _) :- Peek(q1);
    if t.kind == InlineExpr then
      // a token was peeked, so the queue is not empty
      match Next(q1)
      case Ok(inline, q2) => Ok(c.AddInline(Inline(inline.slice)), q2)
    else ParseDeclaredField(q1, c, mangle, isVirtual, isStatic)
  }

  // ---------------------------------------------------------------------------
  // Classes and programs (lines 232-269)

  /** The superclass list after `:`, up to and including `{`. */
  function SuperclassesLoop(q: seq<Token>, c: ClassValue): (r: Parsed<ClassValue>)
    ensures r.Ok? ==> |r.rest| < |q|
    decreases |q|
  {
    var (superclass, q1) :- ParseQualifiedName(q);
    var c1 := c.AddSuperclass(superclass);
    var (noBrace, q2) :- NextIfType(BraceL, q1);
    if !noBrace then Ok(c1, q2)
    else
      var (_, q3) :- NextExpect(q2, Comma);
      SuperclassesLoop(q3, c1)
  }

  /** The opening brace when no superclass list is given. */
  function ParseBodyStart(q: seq<Token>, c: ClassValue): (r: Parsed<ClassValue>)
    ensures r.Ok? ==> |r.rest| < |q|
  {
    var (_, q1) :- NextExpect(q, BraceL);
    Ok(c, q1)
  }

  /** Fields up to and including `}`. */
  function BodyLoop(q: seq<Token>, c: ClassValue): (r: Parsed<ClassValue>)
    ensures r.Ok? ==> |r.rest| < |q|
    decreases |q|
  {
    var (noBrace, q1) :- NextIfType(BraceR, q);
    if !noBrace then Ok(c, q1)
    else
      var (c1, q2) :- ParseField(q1, c);
      BodyLoop(q2, c1)
  }

  /** `class`, the class name and the superclass list, up to and including `{`;
      the name is written into `c`. */
  function ParseClassHead(q: seq<Token>, c: ClassValue): (r: Parsed<ClassValue>)
    ensures r.Ok? ==> |r.rest| < |q|
  {
    var (_, q1) :- NextExpect(q, Class);
    var (name, q2) :- ParseQualifiedName(q1);
    var c1 := c.(name := name);
    var (noColon, q3) :- NextIfType(Colon, q2);
    if !noColon then SuperclassesLoop(q3, c1) else ParseBodyStart(q3, c1)
  }

  /** The class `parseClass` builds before storing it. */
  function ParseClassDefinition(q: seq<Token>): (r: Parsed<ClassValue>)
    ensures r.Ok? ==> |r.rest| < |q|
  {
    var (c, q1) :- ParseClassHead(q, EmptyClass(""));
    BodyLoop(q1, c)
  }

  /** `parseClass`: the class is stored under its name, replacing any earlier one. */
  function ParseClass(q: seq<Token>, classes: map<string, ClassValue>): (r: Parsed<map<string, ClassValue>>)
    ensures r.Ok? ==> |r.rest| < |q|
    ensures r.Ok? ==> ParseClassDefinition(q).Ok? && r.value.Keys == classes.Keys + {ParseClassDefinition(q).value.name}
  {
    var (c, q1) :- ParseClassDefinition(q);
    Ok(classes[c.name := c], q1)
  }

  /** The loop of `parseTokens`: classes until the queue is empty. */
  function ProgramLoop(q: seq<Token>, classes: map<string, ClassValue>): (r: Result<map<string, ClassValue>>)
    ensures r.Success? ==> classes.Keys <= r.value.Keys
    ensures r.Success? && q != [] ==> |r.value| > 0
    decreases |q|
  {
    if |q| == 0 then Success(classes)
    else
      match ParseClass(q, classes)
      case Err(e) => Failure(e)
      case Ok(classes1, q1) => ProgramLoop(q1, classes1)
  }

  /** `parseTokens`: an empty queue is the empty program, and a program with
      tokens defines at least one class when it parses. */
  function ParseTokens(ts: seq<Token>): (r: Result<map<string, ClassValue>>)
    ensures ts == [] ==> r == Success(map[])
    ensures r.Success? && ts != [] ==> |r.value| > 0
  {
    ProgramLoop(ts, map[])
  }
}
