/** The syntax tree the parser fills in: functions, data members and inline
    blocks of a class, kept in three typed lists, and `in_order`, the one list
    that records their declaration order across the three kinds.

    The source keeps raw pointers into growable vectors in `in_order`; here an
    entry is a (kind, index) pair, and `ClassValue.Wf` is the invariant that
    makes every entry refer to a live element, each element exactly once, in
    declaration order. */
module Ast {

  /** Number of platform variants a bind or hardcode list has room for. */
  const SlotCount: nat := 3

  /** A bind or hardcode list: one (possibly empty) address per platform variant. */
  type Slots = s: seq<string> | |s| == SlotCount witness ["", "", ""]

  /** A list with no slot bound. */
  const EmptySlots: Slots := ["", "", ""]

  /** A member function; `androidMangle` is empty when no `mangle` attribute was given. */
  datatype Function = Function(
    name: string,
    returnType: string,
    isConst: bool,
    isVirtual: bool,
    isStatic: bool,
    androidMangle: string,
    args: seq<string>,
    binds: Slots)

  /** A data member; `count` is 1 for a scalar, the bracketed number for an array. */
  datatype Member = Member(typeName: string, name: string, count: nat, hardcodes: Slots)

  /** A verbatim block passed through to the code generator. */
  datatype Inline = Inline(inlined: string)

  datatype EntryKind = FunctionEntry | MemberEntry | InlineEntry

  /** One `in_order` entry: which typed list, and the position in it. */
  datatype Entry = Entry(kind: EntryKind, index: nat)

  /** How many entries of kind `k` the sequence `s` holds. */
  function CountKind(s: seq<Entry>, k: EntryKind): nat
  {
    if |s| == 0 then 0
    else CountKind(s[..|s| - 1], k) + (if s[|s| - 1].kind == k then 1 else 0)
  }

  /** A class definition as a value: what `Root` stores for each class name. */
  datatype ClassValue = ClassValue(
    name: string,
    superclasses: seq<string>,
    functions: seq<Function>,
    members: seq<Member>,
    inlines: seq<Inline>,
    inOrder: seq<Entry>)
  {
    /** Length of the typed list an entry of kind `k` points into. */
    function Size(k: EntryKind): nat
    {
      match k
      case FunctionEntry => |functions|
      case MemberEntry => |members|
      case InlineEntry => |inlines|
    }

    /** The `in_order` invariant: the i-th entry of a kind points at the i-th
        element of that kind's list, and every element of every list has its entry. */
    predicate Wf()
    {
      && (forall i :: 0 <= i < |inOrder| ==> inOrder[i].index == CountKind(inOrder[..i], inOrder[i].kind))
      && CountKind(inOrder, FunctionEntry) == |functions|
      && CountKind(inOrder, MemberEntry) == |members|
      && CountKind(inOrder, InlineEntry) == |inlines|
    }

    function AddSuperclass(s: string): ClassValue
    {
      this.(superclasses := superclasses + [s])
    }

    /** The class with `f` appended to its functions and an entry for it to in_order. */
    function AddFunction(f: Function): ClassValue
    {
      this.(functions := functions + [f], inOrder := inOrder + [Entry(FunctionEntry, |functions|)])
    }

    function AddMember(m: Member): ClassValue
    {
      this.(members := members + [m], inOrder := inOrder + [Entry(MemberEntry, |members|)])
    }

    function AddInline(i: Inline): ClassValue
    {
      this.(inlines := inlines + [i], inOrder := inOrder + [Entry(InlineEntry, |inlines|)])
    }
  }

  /** A class with a name and nothing else, as `parseClass` starts it. */
  function EmptyClass(name: string): (c: ClassValue)
    ensures c.Wf() && c.name == name
    ensures c.superclasses == [] && c.functions == [] && c.members == [] && c.inlines == []
  {
    ClassValue(name, [], [], [], [], [])
  }

  /** The `ClassDefinition` object the parser fills in place. */
  class ClassDefinition {
    var name: string
    var superclasses: seq<string>
    var functions: seq<Function>
    var members: seq<Member>
    var inlines: seq<Inline>
    var inOrder: seq<Entry>

    /** The value copy of this object that the root stores under the class name. */
    function Value(): ClassValue
      reads this
    {
      ClassValue(name, superclasses, functions, members, inlines, inOrder)
    }

    /** The `in_order` invariant of the object's current state. */
    ghost predicate Valid()
      reads this
    {
      Value().Wf()
    }

    constructor ()
      ensures Value() == EmptyClass("") && Valid()
    {
      name, superclasses, functions, members, inlines, inOrder := "", [], [], [], [], [];
    }

    /** Appends `s` to the superclasses. */
    method AddSuperclass(s: string)
      modifies this
      ensures Value() == old(Value()).AddSuperclass(s)
      ensures old(Valid()) ==> Valid()
    {
      ghost var before := Value();
      superclasses := superclasses + [s];
      if before.Wf() {
        AddSuperclassWf(before, s);
      }
    }

    /** Appends `f` to the functions and an entry naming it to `inOrder`. */
    method AddFunction(f: Function)
      modifies this
      ensures Value() == old(Value()).AddFunction(f)
      ensures old(Valid()) ==> Valid()
    {
      ghost var before := Value();
      inOrder := inOrder + [Entry(FunctionEntry, |functions|)];
      functions := functions + [f];
      if before.Wf() {
        AddFunctionWf(before, f);
      }
    }

    /** Appends `m` to the members and an entry naming it to `inOrder`. */
    method AddMember(m: Member)
      modifies this
      ensures Value() == old(Value()).AddMember(m)
      ensures old(Valid()) ==> Valid()
    {
      ghost var before := Value();
      inOrder := inOrder + [Entry(MemberEntry, |members|)];
      members := members + [m];
      if before.Wf() {
        AddMemberWf(before, m);
      }
    }

    /** Appends `i` to the inline blocks and an entry naming it to `inOrder`. */
    method AddInline(i: Inline)
      modifies this
      ensures Value() == old(Value()).AddInline(i)
      ensures old(Valid()) ==> Valid()
    {
      ghost var before := Value();
      inOrder := inOrder + [Entry(InlineEntry, |inlines|)];
      inlines := inlines + [i];
      if before.Wf() {
        AddInlineWf(before, i);
      }
    }
  }

  /** The parse result: class name to definition, the last definition of a name winning. */
  class Root {
    var classes: map<string, ClassValue>

    constructor ()
      ensures classes == map[]
    {
      classes := map[];
    }
  }

  // ---------------------------------------------------------------------------
  // Properties of the in_order invariant

  lemma {:induction false} CountKindAppend(s: seq<Entry>, e: Entry, k: EntryKind)
    ensures CountKind(s + [e], k) == CountKind(s, k) + (if e.kind == k then 1 else 0)
  {
    assert (s + [e])[..|s|] == s;
  }

  lemma {:induction false} CountKindSum(s: seq<Entry>)
    ensures CountKind(s, FunctionEntry) + CountKind(s, MemberEntry) + CountKind(s, InlineEntry) == |s|
  {
    if |s| > 0 {
      CountKindSum(s[..|s| - 1]);
    }
  }

  /** Counting over a longer prefix never gives less, and gives more when an
      entry of the kind lies in between. */
  lemma {:induction false} CountKindPrefix(s: seq<Entry>, i: nat, j: nat, k: EntryKind)
    requires i <= j <= |s|
    ensures CountKind(s[..i], k) <= CountKind(s[..j], k)
    ensures i < j && s[i].kind == k ==> CountKind(s[..i], k) < CountKind(s[..j], k)
    decreases j
  {
    if i < j {
      assert s[..j][..j - 1] == s[..j - 1];
      CountKindPrefix(s, i, j - 1, k);
      if i == j - 1 {
        assert s[..j][j - 1] == s[i];
      }
    }
  }

  /** Every value below the count of a kind is the count of some proper prefix
      that ends just before an entry of that kind. */
  lemma {:induction false} CountKindReached(s: seq<Entry>, k: EntryKind, n: nat)
    requires n < CountKind(s, k)
    ensures exists i :: 0 <= i < |s| && s[i].kind == k && CountKind(s[..i], k) == n
  {
    var t := s[..|s| - 1];
    if n < CountKind(t, k) {
      CountKindReached(t, k, n);
      var i :| 0 <= i < |t| && t[i].kind == k && CountKind(t[..i], k) == n;
      assert t[..i] == s[..i];
    } else {
      assert s[..|s| - 1] == t;
    }
  }

  /** The typed lists and in_order have matching sizes. */
  lemma WfLength(c: ClassValue)
    requires c.Wf()
    ensures |c.inOrder| == |c.functions| + |c.members| + |c.inlines|
  {
    CountKindSum(c.inOrder);
  }

  /** Every in_order entry refers to a live element of its list. */
  lemma WfLive(c: ClassValue, i: int)
    requires c.Wf() && 0 <= i < |c.inOrder|
    ensures c.inOrder[i].index < c.Size(c.inOrder[i].kind)
  {
    var s, k := c.inOrder, c.inOrder[i].kind;
    CountKindPrefix(s, i, |s|, k);
    assert s[..|s|] == s;
  }

  /** Entries of one kind appear in the order of their list, so iterating
      in_order meets each list's elements in declaration order, none twice. */
  lemma WfOrdered(c: ClassValue, i: int, j: int)
    requires c.Wf() && 0 <= i < j < |c.inOrder| && c.inOrder[i].kind == c.inOrder[j].kind
    ensures c.inOrder[i].index < c.inOrder[j].index
  {
    CountKindPrefix(c.inOrder, i, j, c.inOrder[i].kind);
  }

  /** Every element of every typed list has an entry in in_order. */
  lemma WfComplete(c: ClassValue, k: EntryKind, n: nat)
    requires c.Wf() && n < c.Size(k)
    ensures exists i :: 0 <= i < |c.inOrder| && c.inOrder[i] == Entry(k, n)
  {
    CountKindReached(c.inOrder, k, n);
  }

  lemma {:induction false} AddEntryWf(c: ClassValue, c2: ClassValue, k: EntryKind)
    requires c.Wf()
    requires c2.inOrder == c.inOrder + [Entry(k, c.Size(k))]
    requires c2.Size(k) == c.Size(k) + 1
    requires forall k2 :: k2 != k ==> c2.Size(k2) == c.Size(k2)
    ensures c2.Wf()
  {
    var s, e := c.inOrder, Entry(k, c.Size(k));
    forall i | 0 <= i < |c2.inOrder|
      ensures c2.inOrder[i].index == CountKind(c2.inOrder[..i], c2.inOrder[i].kind)
    {
      if i < |s| {
        assert c2.inOrder[..i] == s[..i];
      } else {
        assert c2.inOrder[..i] == s;
      }
    }
    CountKindAppend(s, e, FunctionEntry);
    CountKindAppend(s, e, MemberEntry);
    CountKindAppend(s, e, InlineEntry);
    assert c2.Size(FunctionEntry) == CountKind(c2.inOrder, FunctionEntry);
    assert c2.Size(MemberEntry) == CountKind(c2.inOrder, MemberEntry);
    assert c2.Size(InlineEntry) == CountKind(c2.inOrder, InlineEntry);
  }

  /** Appending a function, a member or an inline keeps the invariant. */
  lemma AddFunctionWf(c: ClassValue, f: Function)
    requires c.Wf()
    ensures c.AddFunction(f).Wf()
  {
    AddEntryWf(c, c.AddFunction(f), FunctionEntry);
  }

  lemma AddMemberWf(c: ClassValue, m: Member)
    requires c.Wf()
    ensures c.AddMember(m).Wf()
  {
    AddEntryWf(c, c.AddMember(m), MemberEntry);
  }

  lemma AddInlineWf(c: ClassValue, i: Inline)
    requires c.Wf()
    ensures c.AddInline(i).Wf()
  {
    AddEntryWf(c, c.AddInline(i), InlineEntry);
  }

  lemma AddSuperclassWf(c: ClassValue, s: string)
    requires c.Wf()
    ensures c.AddSuperclass(s).Wf()
  {
  }
}
