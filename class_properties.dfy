/** What the routines that assemble classes and programs guarantee: a field
    adds exactly one element to one list together with its in_order entry,
    what was gathered in front of a function reaches it, superclasses keep
    their order, and every class the program stores is well formed and filed
    under its own, non-empty name. */
module ClassProperties {
  import opened Tokens
  import opened Ast
  import opened Grammar
  import opened FieldProperties

  // ---------------------------------------------------------------------------
  // Appending one field

  /** `c2` is `c` with one function, one member or one inline block appended. */
  ghost predicate AppendsOne(c: ClassValue, c2: ClassValue)
  {
    || (exists f :: c2 == c.AddFunction(f))
    || (exists m :: c2 == c.AddMember(m))
    || (exists i :: c2 == c.AddInline(i))
  }

  /** `c2` keeps everything `c` holds and may hold more after it. */
  predicate Extends(c: ClassValue, c2: ClassValue)
  {
    && c2.name == c.name && c2.superclasses == c.superclasses
    && |c.functions| <= |c2.functions| && c2.functions[..|c.functions|] == c.functions
    && |c.members| <= |c2.members| && c2.members[..|c.members|] == c.members
    && |c.inlines| <= |c2.inlines| && c2.inlines[..|c.inlines|] == c.inlines
    && |c.inOrder| <= |c2.inOrder| && c2.inOrder[..|c.inOrder|] == c.inOrder
  }

  lemma ExtendsTrans(c: ClassValue, c1: ClassValue, c2: ClassValue)
    requires Extends(c, c1) && Extends(c1, c2)
    ensures Extends(c, c2)
  {
    assert c2.functions[..|c.functions|] == c2.functions[..|c1.functions|][..|c.functions|];
    assert c2.members[..|c.members|] == c2.members[..|c1.members|][..|c.members|];
    assert c2.inlines[..|c.inlines|] == c2.inlines[..|c1.inlines|][..|c.inlines|];
    assert c2.inOrder[..|c.inOrder|] == c2.inOrder[..|c1.inOrder|][..|c.inOrder|];
  }

  /** One new in_order entry, pointing at the new last element of the one
      list that grew; everything before is kept. */
  predicate OneMore(c: ClassValue, c2: ClassValue)
  {
    && Extends(c, c2) && |c2.inOrder| == |c.inOrder| + 1
    && var e := c2.inOrder[|c.inOrder|];
      && e.index == c.Size(e.kind) && c2.Size(e.kind) == c.Size(e.kind) + 1
      && (forall k :: k != e.kind ==> c2.Size(k) == c.Size(k))
  }

  lemma AddFunctionShape(c: ClassValue, f: Function)
    ensures OneMore(c, c.AddFunction(f))
  {
    var c2 := c.AddFunction(f);
    assert c2.functions[..|c.functions|] == c.functions && c2.members[..|c.members|] == c.members;
    assert c2.inlines[..|c.inlines|] == c.inlines && c2.inOrder[..|c.inOrder|] == c.inOrder;
  }

  lemma AddMemberShape(c: ClassValue, m: Member)
    ensures OneMore(c, c.AddMember(m))
  {
    var c2 := c.AddMember(m);
    assert c2.functions[..|c.functions|] == c.functions && c2.members[..|c.members|] == c.members;
    assert c2.inlines[..|c.inlines|] == c.inlines && c2.inOrder[..|c.inOrder|] == c.inOrder;
  }

  lemma AddInlineShape(c: ClassValue, i: Inline)
    ensures OneMore(c, c.AddInline(i))
  {
    var c2 := c.AddInline(i);
    assert c2.functions[..|c.functions|] == c.functions && c2.members[..|c.members|] == c.members;
    assert c2.inlines[..|c.inlines|] == c.inlines && c2.inOrder[..|c.inOrder|] == c.inOrder;
  }

  /** Appending one element adds one in_order entry for it, keeps everything
      before, and preserves the in_order invariant. */
  lemma AppendsOneShape(c: ClassValue, c2: ClassValue)
    requires AppendsOne(c, c2)
    ensures OneMore(c, c2)
    ensures c.Wf() ==> c2.Wf()
  {
    if exists f :: c2 == c.AddFunction(f) {
      var f :| c2 == c.AddFunction(f);
      AddFunctionShape(c, f);
      if c.Wf() { AddFunctionWf(c, f); }
    } else if exists m :: c2 == c.AddMember(m) {
      var m :| c2 == c.AddMember(m);
      AddMemberShape(c, m);
      if c.Wf() { AddMemberWf(c, m); }
    } else {
      var i :| c2 == c.AddInline(i);
      AddInlineShape(c, i);
      if c.Wf() { AddInlineWf(c, i); }
    }
  }

  /** A parsed function carries the name, type, qualifiers and mangle it was
      started with, and is the one element appended. */
  lemma ParseFunctionAppends(q: seq<Token>, c: ClassValue, f: Function)
    requires ParseFunction(q, c, f).Ok?
    ensures exists g ::
      && ParseFunction(q, c, f).value == c.AddFunction(g)
      && g.name == f.name && g.returnType == f.returnType && g.isVirtual == f.isVirtual
      && g.isStatic == f.isStatic && g.androidMangle == f.androidMangle
  {
    var p := ParseParameters(q, f);
    var q2 := NextExpect(p.rest, Equal).rest;
    var g := p.value.(binds := BindsLoop(q2, 0, p.value.binds).value);
    assert ParseFunction(q, c, f).value == c.AddFunction(g);
  }

  /** A parsed member carries the type and name it was started with. */
  lemma ParseMemberAppends(q: seq<Token>, c: ClassValue, typeName: string, name: string)
    requires ParseMember(q, c, typeName, name).Ok?
    ensures exists m ::
      && ParseMember(q, c, typeName, name).value == c.AddMember(m)
      && m.typeName == typeName && m.name == name
  {
    var count := ParseMemberCount(q);
    var hardcodes := ParseMemberSlots(count.rest);
    assert ParseMember(q, c, typeName, name).value == c.AddMember(Member(typeName, name, count.value, hardcodes.value));
  }

  /** After its prefix a declaration becomes a function with the declared name
      and type and the prefix's mangle and qualifiers, or a data member with the
      declared name and type, which has no qualifiers. */
  lemma DeclaredFieldOutcome(q: seq<Token>, c: ClassValue, mangle: string, isVirtual: bool, isStatic: bool)
    requires ParseDeclaredField(q, c, mangle, isVirtual, isStatic).Ok?
    ensures ParseDeclarator(q).Ok?
    ensures var (returnType, name) := ParseDeclarator(q).value;
      var c2 := ParseDeclaredField(q, c, mangle, isVirtual, isStatic).value;
      || (exists g :: c2 == c.AddFunction(g) && g.name == name && g.returnType == returnType
            && g.isVirtual == isVirtual && g.isStatic == isStatic && g.androidMangle == mangle)
      || (!isVirtual && !isStatic && exists m :: c2 == c.AddMember(m) && m.typeName == returnType && m.name == name)
  {
    var d := ParseDeclarator(q);
    var (returnType, name) := d.value;
    if d.rest[0].kind == ParenL {
      ParseFunctionAppends(d.rest, c, Function(name, returnType, false, isVirtual, isStatic, mangle, [], EmptySlots));
    } else {
      ParseMemberAppends(d.rest, c, returnType, name);
    }
  }

  /** `virtual` or `static` in front of a data member is an error, `virtual`
      being reported first. */
  lemma QualifiedMemberRejected(q: seq<Token>, c: ClassValue, mangle: string, isVirtual: bool, isStatic: bool)
    requires ParseDeclarator(q).Ok? && ParseDeclarator(q).rest[0].kind != ParenL
    requires isVirtual || isStatic
    ensures ParseDeclaredField(q, c, mangle, isVirtual, isStatic) == Err(UnexpectedQualifier(if isVirtual then Virtual else Static))
  {
  }

  /** Every field that parses appends exactly one element. */
  lemma ParseFieldAppends(q: seq<Token>, c: ClassValue)
    requires ParseField(q, c).Ok?
    ensures AppendsOne(c, ParseField(q, c).value)
  {
    var p := ParseFieldPrefix(q);
    var (mangle, isVirtual, isStatic) := p.value;
    if p.rest[0].kind == InlineExpr {
      assert ParseField(q, c).value == c.AddInline(Inline(p.rest[0].slice));
    } else {
      DeclaredFieldOutcome(p.rest, c, mangle, isVirtual, isStatic);
    }
  }

  /** An inline block is appended as it is; the attribute and qualifiers
      parsed in front of it are dropped. */
  lemma InlineDropsPrefix(q: seq<Token>, c: ClassValue)
    requires ParseFieldPrefix(q).Ok?
    requires var q1 := ParseFieldPrefix(q).rest; |q1| > 0 && q1[0].kind == InlineExpr
    ensures var q1 := ParseFieldPrefix(q).rest;
      ParseField(q, c) == Ok(c.AddInline(Inline(q1[0].slice)), q1[1..])
  {
  }

  // ---------------------------------------------------------------------------
  // Class bodies and superclasses

  /** The body keeps the class's name and superclasses and everything appended
      before it, and preserves the in_order invariant. */
  lemma {:induction false} BodyLoopExtends(q: seq<Token>, c: ClassValue)
    requires BodyLoop(q, c).Ok? && c.Wf()
    ensures Extends(c, BodyLoop(q, c).value) && BodyLoop(q, c).value.Wf()
    decreases |q|
  {
    var c2 := BodyLoop(q, c).value;
    if q[0].kind == BraceR {
      assert c2 == c;
      assert c.functions[..|c.functions|] == c.functions && c.members[..|c.members|] == c.members;
      assert c.inlines[..|c.inlines|] == c.inlines && c.inOrder[..|c.inOrder|] == c.inOrder;
    } else {
      var f := ParseField(q, c);
      ParseFieldAppends(q, c);
      AppendsOneShape(c, f.value);
      BodyLoopExtends(f.rest, f.value);
      ExtendsTrans(c, f.value, c2);
    }
  }

  /** The superclass list appends at least one superclass, in order, none of
      them empty, and changes nothing else. */
  lemma {:induction false} SuperclassesParsed(q: seq<Token>, c: ClassValue)
    requires SuperclassesLoop(q, c).Ok?
    ensures var c2 := SuperclassesLoop(q, c).value;
      && |c.superclasses| < |c2.superclasses| && c2.superclasses[..|c.superclasses|] == c.superclasses
      && (forall i :: |c.superclasses| <= i < |c2.superclasses| ==> c2.superclasses[i] != "")
      && c2 == c.(superclasses := c2.superclasses)
    decreases |q|
  {
    var n := ParseQualifiedName(q);
    var c1 := c.AddSuperclass(n.value);
    var c2 := SuperclassesLoop(q, c).value;
    assert c1.superclasses[..|c.superclasses|] == c.superclasses;
    var b := NextIfType(BraceL, n.rest);
    if b.value {
      var q3 := NextExpect(b.rest, Comma).rest;
      SuperclassesParsed(q3, c1);
      assert c2.superclasses[..|c.superclasses|] == c2.superclasses[..|c1.superclasses|][..|c.superclasses|];
    }
  }

  const BraceToken: Token := Token(BraceL, "{")

  /** Superclass names written as identifiers, separated by `,` and closed by `{`. */
  function SuperclassTokens(names: seq<string>): seq<Token>
    decreases |names|
  {
    if |names| == 0 then []
    else [Token(Ident, names[0]), if |names| == 1 then BraceToken else CommaToken] + SuperclassTokens(names[1..])
  }

  /** One name and the separator after it. */
  lemma SuperclassStep(name: string, sep: Token, tail: seq<Token>, c: ClassValue)
    requires name != "" && (sep == BraceToken || sep == CommaToken)
    ensures SuperclassesLoop([Token(Ident, name), sep] + tail, c) ==
      if sep == BraceToken then Ok(c.AddSuperclass(name), tail) else SuperclassesLoop(tail, c.AddSuperclass(name))
  {
    var q := [Token(Ident, name), sep] + tail;
    assert q[1..] == [sep] + tail && q[1..][0] == sep && q[1..][1..] == tail;
    assert "" + name == name;
    assert QualifiedNameLoop(q[1..], name) == Ok(name, q[1..]);
  }

  /** A written superclass list parses back to its names, in order. */
  lemma {:induction false} SuperclassesRoundTrip(names: seq<string>, c: ClassValue, rest: seq<Token>)
    requires 0 < |names| && forall i :: 0 <= i < |names| ==> names[i] != ""
    ensures SuperclassesLoop(SuperclassTokens(names) + rest, c) == Ok(c.(superclasses := c.superclasses + names), rest)
    decreases |names|
  {
    var sep := if |names| == 1 then BraceToken else CommaToken;
    var tail := SuperclassTokens(names[1..]) + rest;
    AppendAssoc([Token(Ident, names[0]), sep], SuperclassTokens(names[1..]), rest);
    SuperclassStep(names[0], sep, tail, c);
    var c1 := c.AddSuperclass(names[0]);
    if |names| > 1 {
      SuperclassesRoundTrip(names[1..], c1, rest);
      AppendAssoc(c.superclasses, [names[0]], names[1..]);
      assert [names[0]] + names[1..] == names;
    } else {
      assert tail == rest;
      assert [names[0]] == names;
    }
  }

  // ---------------------------------------------------------------------------
  // Classes and programs

  /** The head names the class after the qualified name that follows `class`
      and keeps it well formed. */
  lemma ParseClassHeadNames(q: seq<Token>, c: ClassValue)
    requires ParseClassHead(q, c).Ok? && c.Wf()
    ensures var c2 := ParseClassHead(q, c).value;
      c2.Wf() && c2.name != "" && c2.functions == c.functions && c2.members == c.members && c2.inlines == c.inlines
    ensures |q| > 0 && q[0].kind == Class && ParseQualifiedName(q[1..]).Ok?
      && ParseClassHead(q, c).value.name == ParseQualifiedName(q[1..]).value
  {
    var q1 := NextExpect(q, Class).rest;
    var n := ParseQualifiedName(q1);
    var c1 := c.(name := n.value);
    var b := NextIfType(Colon, n.rest);
    if !b.value {
      SuperclassesParsed(b.rest, c1);
    }
  }

  /** A parsed class keeps the in_order invariant and is named by the
      qualified name after `class`. */
  lemma ParseClassDefinitionWf(q: seq<Token>)
    requires ParseClassDefinition(q).Ok?
    ensures ParseClassDefinition(q).value.Wf() && ParseClassDefinition(q).value.name != ""
    ensures |q| > 0 && q[0].kind == Class && ParseQualifiedName(q[1..]).Ok?
      && ParseClassDefinition(q).value.name == ParseQualifiedName(q[1..]).value
  {
    var h := ParseClassHead(q, EmptyClass(""));
    ParseClassHeadNames(q, EmptyClass(""));
    BodyLoopExtends(h.rest, h.value);
  }

  /** Storing a class writes one entry, under the class's own name, replacing
      whatever was stored under that name; no other entry changes. */
  lemma ParseClassStores(q: seq<Token>, classes: map<string, ClassValue>)
    requires ParseClass(q, classes).Ok?
    ensures exists c: ClassValue :: c.Wf() && c.name != "" && ParseClass(q, classes).value == classes[c.name := c]
  {
    ParseClassDefinitionWf(q);
    var c := ParseClassDefinition(q).value;
    assert ParseClass(q, classes).value == classes[c.name := c];
  }

  /** Every class is filed under its own name, which is not empty, and is well formed. */
  predicate Filed(classes: map<string, ClassValue>)
  {
    forall name :: name in classes ==> name != "" && classes[name].name == name && classes[name].Wf()
  }

  /** Parsing a program keeps the classes filed, and classes are never dropped. */
  lemma {:induction false} ProgramLoopFiled(q: seq<Token>, classes: map<string, ClassValue>)
    requires Filed(classes) && ProgramLoop(q, classes).Success?
    ensures Filed(ProgramLoop(q, classes).value) && classes.Keys <= ProgramLoop(q, classes).value.Keys
    decreases |q|
  {
    if |q| > 0 {
      var p := ParseClass(q, classes);
      assert Filed(p.value) by {
        ParseClassStores(q, classes);
        var c: ClassValue :| c.Wf() && c.name != "" && p.value == classes[c.name := c];
      }
      ProgramLoopFiled(p.rest, p.value);
    }
  }

  /** The classes of a parsed program are filed under their names. */
  lemma ParseTokensFiled(ts: seq<Token>)
    requires ParseTokens(ts).Success?
    ensures Filed(ParseTokens(ts).value)
  {
    ProgramLoopFiled(ts, map[]);
  }

  /** An empty token sequence is an empty program. */
  lemma EmptyProgram()
    ensures ParseTokens([]) == Success(map[])
  {
  }

  /** One class of the program, stored under its name. */
  lemma ProgramStep(q: seq<Token>, classes: map<string, ClassValue>)
    requires ParseClassDefinition(q).Ok?
    ensures var d := ParseClassDefinition(q);
      ProgramLoop(q, classes) == ProgramLoop(d.rest, classes[d.value.name := d.value])
  {
  }

  /** When a class name is defined twice, the later definition is the one kept. */
  lemma LastDefinitionWins(q: seq<Token>)
    requires ParseClassDefinition(q).Ok?
    requires var q1 := ParseClassDefinition(q).rest;
      ParseClassDefinition(q1).Ok? && ParseClassDefinition(q1).rest == []
      && ParseClassDefinition(q1).value.name == ParseClassDefinition(q).value.name
    ensures var c2 := ParseClassDefinition(ParseClassDefinition(q).rest).value;
      ParseTokens(q) == Success(map[c2.name := c2])
  {
    var d1 := ParseClassDefinition(q);
    var d2 := ParseClassDefinition(d1.rest);
    var m1 := map[d1.value.name := d1.value];
    ProgramStep(q, map[]);
    ProgramStep(d1.rest, m1);
    assert m1[d2.value.name := d2.value] == map[d2.value.name := d2.value];
  }

  /** The classes a token sequence defines, one after the other, as far as
      they parse. */
  function DefinedClasses(q: seq<Token>): seq<ClassValue>
    decreases |q|
  {
    if |q| == 0 then []
    else
      match ParseClassDefinition(q)
      case Err(_) => []
      case Ok(c, q1) => [c] + DefinedClasses(q1)
  }

  /** The map after storing `cs` in order, each under its own name. */
  function Store(classes: map<string, ClassValue>, cs: seq<ClassValue>): map<string, ClassValue>
    decreases |cs|
  {
    if |cs| == 0 then classes else Store(classes[cs[0].name := cs[0]], cs[1..])
  }

  /** A parsed program is its classes stored in order. */
  lemma {:induction false} ProgramLoopStores(q: seq<Token>, classes: map<string, ClassValue>)
    requires ProgramLoop(q, classes).Success?
    ensures ProgramLoop(q, classes).value == Store(classes, DefinedClasses(q))
    decreases |q|
  {
    if |q| > 0 {
      var d := ParseClassDefinition(q);
      var m := classes[d.value.name := d.value];
      ProgramStep(q, classes);
      ProgramLoopStores(d.rest, m);
      var cs := DefinedClasses(q);
      assert cs == [d.value] + DefinedClasses(d.rest);
      assert cs[1..] == DefinedClasses(d.rest);
    }
  }

  /** The names the classes `cs` are stored under. */
  function Names(cs: seq<ClassValue>): set<string>
  {
    set i | 0 <= i < |cs| :: cs[i].name
  }

  lemma NamesCons(cs: seq<ClassValue>)
    requires |cs| > 0
    ensures Names(cs) == {cs[0].name} + Names(cs[1..])
  {
    forall name | name in Names(cs)
      ensures name in {cs[0].name} + Names(cs[1..])
    {
      var i :| 0 <= i < |cs| && cs[i].name == name;
      if i > 0 {
        assert cs[1..][i - 1] == cs[i];
      }
    }
    forall name | name in Names(cs[1..])
      ensures name in Names(cs)
    {
      var i :| 0 <= i < |cs[1..]| && cs[1..][i].name == name;
      assert cs[i + 1] == cs[1..][i];
    }
  }

  /** Storing keeps the earlier names and adds exactly the names stored. */
  lemma {:induction false} StoreKeys(classes: map<string, ClassValue>, cs: seq<ClassValue>)
    ensures Store(classes, cs).Keys == classes.Keys + Names(cs)
    decreases |cs|
  {
    if |cs| == 0 {
      assert Names(cs) == {};
    } else {
      StoreKeys(classes[cs[0].name := cs[0]], cs[1..]);
      NamesCons(cs);
    }
  }

  /** A name that is not stored again keeps its class. */
  lemma {:induction false} StoreKeeps(classes: map<string, ClassValue>, cs: seq<ClassValue>, name: string)
    requires name in classes && forall j :: 0 <= j < |cs| ==> cs[j].name != name
    ensures name in Store(classes, cs) && Store(classes, cs)[name] == classes[name]
    decreases |cs|
  {
    if |cs| > 0 {
      assert forall j :: 0 <= j < |cs[1..]| ==> cs[1..][j] == cs[j + 1];
      StoreKeeps(classes[cs[0].name := cs[0]], cs[1..], name);
    }
  }

  /** Each name holds the last class stored under it. */
  lemma {:induction false} StoreLast(classes: map<string, ClassValue>, cs: seq<ClassValue>, i: nat)
    requires i < |cs| && forall j :: i < j < |cs| ==> cs[j].name != cs[i].name
    ensures cs[i].name in Store(classes, cs) && Store(classes, cs)[cs[i].name] == cs[i]
    decreases |cs|
  {
    var m := classes[cs[0].name := cs[0]];
    if i == 0 {
      assert forall j :: 0 <= j < |cs[1..]| ==> cs[1..][j] == cs[j + 1];
      StoreKeeps(m, cs[1..], cs[0].name);
    } else {
      assert forall j :: i - 1 < j < |cs[1..]| ==> cs[1..][j] == cs[j + 1];
      StoreLast(m, cs[1..], i - 1);
    }
  }

  /** A parsed program holds exactly the names of the classes it defines, each
      with the last of its definitions; so classes with distinct names are
      each kept as parsed. */
  lemma ParseTokensClasses(ts: seq<Token>)
    requires ParseTokens(ts).Success?
    ensures var cs := DefinedClasses(ts);
      ParseTokens(ts).value.Keys == Names(cs)
      && forall i :: 0 <= i < |cs| && (forall j :: i < j < |cs| ==> cs[j].name != cs[i].name) ==>
        ParseTokens(ts).value[cs[i].name] == cs[i]
  {
    var cs := DefinedClasses(ts);
    var m := ParseTokens(ts).value;
    assert m == Store(map[], cs) by {
      ProgramLoopStores(ts, map[]);
    }
    assert m.Keys == Names(cs) by {
      StoreKeys(map[], cs);
    }
    forall i | 0 <= i < |cs| && (forall j :: i < j < |cs| ==> cs[j].name != cs[i].name)
      ensures m[cs[i].name] == cs[i]
    {
      StoreLast(map[], cs, i);
    }
  }
}
