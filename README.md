# Broma class-layout parser, modelled in Dafny

Broma is a small declarative language that describes the layout of native C++
classes: for each class its superclasses, and in declaration order its member
functions (with a return type, `virtual`/`static` qualifiers, an optional
`[[mangle("...")]]` attribute, raw argument texts, a `const` flag and three
per-platform *bind* addresses), its data members (with a type, an element
count and three per-platform *hardcode* addresses) and verbatim inline blocks.
`src/parse.hpp` is the recursive-descent parser that turns the lexer's tokens
into a `Root`, a map from class name to class definition.

This project models that parser and proves what it accepts and what it builds.

- `tokens.dfy` (module `Tokens`): token tags, tokens and the error kinds that
  replace the source's `cacerr` exits.
- `ast.dfy` (module `Ast`): functions, members, inline blocks, the class
  definition with its three typed lists and the `in_order` list, and `Root`.
  `ClassDefinition` and `Root` are classes updated in place, as in the source;
  `ClassValue` is the copy of a class definition that the root stores under
  the class name. An
  `in_order` entry is a (kind, index) pair, and `ClassValue.Wf` is the
  invariant that makes each entry name a live element, each element exactly
  once, in declaration order.
- `grammar.dfy` (module `Grammar`): one function per routine and per loop of
  `parse.hpp`, over the token sequence still queued. Each returns what it
  parsed together with the tokens it leaves, or the error that aborts the parse.
- `parse.dfy` (module `Parse`): the parser as it runs. `Parser` holds the token
  queue and pops it in place. Its methods fill a `ClassDefinition` and a `Root`
  in place, and write bind and hardcode slots one at a time inside counted
  loops. Every method is proved to leave exactly the queue and the result that
  its `Grammar` function describes.
- `field_properties.dfy` (module `FieldProperties`) and `class_properties.dfy`
  (module `ClassProperties`): what the grammar means.
  - Names, declarators and argument lists are maximal token runs.
  - Bind and hardcode lists are the slot lists they write, in both directions,
    with the "at most 3" and trailing-comma errors.
  - Qualifiers come in either order.
  - Array counts are decimal numbers.
  - Each field appends exactly one element and its `in_order` entry.
  - Superclasses keep their order.
  - Every stored class is well formed and filed under its own name. A program
    holds exactly the names of the classes it defines, each with the last of
    its definitions.
- `truncation.dfy` (module `Truncation`): what an input that ends too early
  does. Every grammar function that returns a parse outcome, from `Next` to
  `ParseClass`, is prefix-stable: on the first part `t` of its input it either
  reports the end of input or does exactly what it does on the whole input.
  The program loop is not, since it succeeds wherever the input ends between
  classes. For it, `ProgramConcat` and `TruncatedProgram` state the
  program-level facts: parsing a concatenation of programs parses the parts in
  turn, and a class cut off before its closing `}` is the end of input.

Behaviour reproduced as the code has it:

- `next_if_type` answers `false` when the token matched and was consumed.
- `is_const` is set exactly when `const` follows `)`.
- Hardcodes are read exactly when `=` follows the member. A `[` starts an
  array count.
- A bind slot only peeks at a comma, so `a,,b;` leaves the middle slot empty.
  A hardcode slot consumes its comma and then reads a separator, so the same
  hardcode list needs `a,,,b;`. `a,,b;` there stops at `b` with
  `ExpectedSeparator`.
- A bind list may not end in `,` before `;`, so neither `= ;` nor
  `= &0x1000,&0x2000,;` parses for a function. In a hardcode list, slots each
  followed by a separating `,` may not be followed by `;`, so a member's `= ;`
  fails with `ExpectedAddress` and `= &0xAA,,&0xBB;` fails with
  `ExpectedSeparator`. An empty hardcode slot consumes its own comma, so that
  comma may stand right before `;`: `= ,;` and `= &0xAA,,;` do parse. The code
  rejects the first three lists and the model does the same.
- `next_expect` pops one more token to quote it in its message. A mismatch on
  the last queued token is therefore reported as the end of input.

## Model

| member | source | states |
|---|---|---|
| `Grammar.Next` | src/parse.hpp:10-17 | fails exactly on an empty queue; otherwise returns the front token and removes exactly it |
| `Grammar.Peek` | src/parse.hpp:19-25 | fails exactly on an empty queue; otherwise returns the front token and leaves the queue unchanged |
| `Grammar.NextExpect` | src/parse.hpp:27-32 | succeeds exactly when the front token has the expected tag, returning it and removing only it; a mismatch is the end of input when at most one token was queued and `UnexpectedToken` of the expected tag otherwise |
| `Grammar.NextIfType` | src/parse.hpp:34-41 | fails exactly on an empty queue; answers false exactly when the front tag matches, and then exactly one token is consumed, otherwise none |
| `Parse.Parser.Next` | src/parse.hpp:10-17 | the token returned and the queue left are those of `Grammar.Next` on the old queue |
| `Parse.Parser.Peek` | src/parse.hpp:19-25 | the token returned is that of `Grammar.Peek`, the queue is not modified |
| `Parse.Parser.NextExpect` | src/parse.hpp:27-32 | result and queue left agree with `Grammar.NextExpect`, including the extra pop on a mismatch |
| `Parse.Parser.NextIfType` | src/parse.hpp:34-41 | result and queue left agree with `Grammar.NextIfType` |
| `Parse.Parser.constructor` | src/parse.hpp:258 | a new queue is empty |
| `Parse.Parser.Push` | src/parse.hpp:259-261 | the token is queued at the back |
| `Grammar.QualifiedNameLoop` | src/parse.hpp:45-47 | the name loop: on success no token is gained, and when none is consumed the text is returned unchanged |
| `Grammar.ParseQualifiedName` | src/parse.hpp:43-52 | on success at least one token is consumed; what it reads is `FieldProperties.ParseQualifiedNameMeaning` |
| `Parse.Parser.ParseQualifiedName` | src/parse.hpp:43-52 | the accumulating loop leaves the queue and returns the name `Grammar.ParseQualifiedName` gives |
| `FieldProperties.QualifiedNameLoopRun` | src/parse.hpp:45-47 | over a maximal `Ident`/`Qualifier` run the loop appends the joined slices and stops in front of the first other token, or fails at the end of input |
| `FieldProperties.ParseQualifiedNameMeaning` | src/parse.hpp:43-52 | a qualified name is the joined text of the maximal `Ident`/`Qualifier` run; empty text is `ExpectedIdentifier`, a run to the end of input is end of input |
| `Grammar.ParseAttribute` | src/parse.hpp:53-67 | on success at least one token is consumed; what it accepts is `FieldProperties.AttributeParsed` |
| `Grammar.ParseMangle` | src/parse.hpp:55-60 | on success at least one token is consumed (the tail of a `mangle` attribute) |
| `Parse.Parser.ParseAttribute` | src/parse.hpp:54-67 | result and queue left agree with `Grammar.ParseAttribute` |
| `FieldProperties.AttributeParsed` | src/parse.hpp:54-67 | an attribute parses exactly when it is `mangle ( string ) ]]`, giving the string's slice and consuming those five tokens; any other identifier is `UnsupportedAttribute` |
| `Grammar.ArgumentLoop` | src/parse.hpp:74-76 | on success no token is gained, and a token is consumed unless the front is `)` |
| `Parse.Parser.ParseArgument` | src/parse.hpp:73-76 | the inner argument loop agrees with `Grammar.ArgumentLoop` from empty text |
| `FieldProperties.ArgumentLoopRun` | src/parse.hpp:74-76 | over a maximal run of tokens other than `,` and `)` the argument text grows by the joined run; a `,` after it is consumed, a `)` is left |
| `Grammar.ArgumentsLoop` | src/parse.hpp:72-81 | on success at least one token is consumed, the closing `)` at least; what it gathers is `FieldProperties.ArgumentsLoopRun` |
| `Parse.Parser.ParseArguments` | src/parse.hpp:72-81 | the outer argument loop, with its `continue` on empty text, agrees with `Grammar.ArgumentsLoop` |
| `FieldProperties.ArgumentsLoopRun` | src/parse.hpp:72-81 | the argument list runs to the first `)`, which it consumes, and appends the non-empty comma-separated texts in order (`ArgTexts`); with no `)` the input ends first |
| `Grammar.ParseParameters` | src/parse.hpp:70-84 | on success at least one token is consumed; what it reads is `FieldProperties.ParseParametersMeaning` |
| `Parse.Parser.ParseParameters` | src/parse.hpp:70-84 | result and queue left agree with `Grammar.ParseParameters` |
| `FieldProperties.ParseParametersMeaning` | src/parse.hpp:70-84 | after `(`, the arguments are the comma-separated texts up to the first `)`, and `is_const` is set when `const` follows that `)`, which is then consumed, and otherwise kept as it was |
| `FieldProperties.FunctionNeedsEqual` | src/parse.hpp:85-105 | a function parses exactly when `=` follows its parameters and a bind list follows the `=` |
| `Grammar.BindSlot` | src/parse.hpp:91-98 | on success no token is gained |
| `Parse.Parser.ParseBindSlot` | src/parse.hpp:91-98 | result and queue agree with `Grammar.BindSlot`: an address is consumed, a comma is left in the queue |
| `Grammar.BindsLoop` | src/parse.hpp:87-105 | on success at least one token is consumed; what it writes is `FieldProperties.BindsRender` and `FieldProperties.BindsParsed` |
| `Parse.Parser.ParseBinds` | src/parse.hpp:87-105 | the counted slot loop, writing `binds[k]` in place, agrees with `Grammar.BindsLoop` from slot 0 |
| `FieldProperties.BindsStep` | src/parse.hpp:91-104 | one bind slot and its separator: `;` ends the list with the slot written, `,` goes on to the next slot, and an empty slot before `;` is `ExpectedAddress` |
| `FieldProperties.BindsRender` | src/parse.hpp:87-105 | a written bind list whose last slot is not empty parses back into its slots from slot `k` on, leaving the tokens after `;` |
| `FieldProperties.BindsRoundTrip` | src/parse.hpp:87-105 | one to three bind slots, the last not empty, written out after `=`, parse back to those slots padded with empty ones |
| `FieldProperties.BindsParsed` | src/parse.hpp:87-105 | conversely every bind list that parses is such a written list of one to three slots, filled in order from slot `k` |
| `FieldProperties.BindsWritten` | src/parse.hpp:87-105 | gives the slots that a parsed bind list was written from |
| `FieldProperties.BindsPrefix` | src/parse.hpp:87-105 | slots each followed by `,` are filled in order and leave the rest of the list to the loop at the next slot |
| `FieldProperties.BindsTooMany` | src/parse.hpp:87-89 | three slots each followed by `,` are `TooManySlots` |
| `FieldProperties.BindsTrailingComma` | src/parse.hpp:91-98 | a bind list ending in `,` before `;` is `ExpectedAddress`, so `= ;` and `= a, b, ;` fail |
| `FieldProperties.BindsEmptySlot` | src/parse.hpp:91-96 | `a,,b;` is the bind list a, empty, b |
| `FieldProperties.SlotErrors` | src/parse.hpp:91-144 | in both lists a slot that is neither address nor comma is `ExpectedAddress`, and an address followed by anything but `,` or `;` is `ExpectedSeparator`; in a hardcode list so is an empty slot's comma followed by anything but `,` or `;`; a slot that ends the input is the end of input |
| `Grammar.ParseFunction` | src/parse.hpp:69-109 | on success at least one token is consumed; what it appends is `ClassProperties.ParseFunctionAppends` |
| `Parse.Parser.ParseFunction` | src/parse.hpp:69-109 | the queue left and the class after appending agree with `Grammar.ParseFunction` on the old class, and a class that keeps the `in_order` invariant still keeps it |
| `Grammar.DecimalValue` | src/parse.hpp:122 | a digit string reads as 0 exactly when every digit is `0` |
| `Grammar.ParseArrayCount` | src/parse.hpp:117-125 | on success at least one token is consumed; what it reads is `FieldProperties.MemberCountDigitsOnly` |
| `Grammar.ParseMemberCount` | src/parse.hpp:114-125 | on success no token is gained; what it reads is `FieldProperties.MemberCountDefault` and `FieldProperties.MemberCountArray` |
| `Parse.Parser.ParseMemberCount` | src/parse.hpp:117-125 | result and queue left agree with `Grammar.ParseMemberCount` |
| `FieldProperties.DecimalRoundTrip` | src/parse.hpp:122 | the decimal value of the digits of `n` is `n` |
| `FieldProperties.MemberCountArray` | src/parse.hpp:117-125 | `[N]`, with N written in decimal, gives count N and consumes the three tokens |
| `FieldProperties.MemberCountDefault` | src/parse.hpp:114-117 | without `[`, the count is 1 and nothing is consumed |
| `FieldProperties.MemberCountDigitsOnly` | src/parse.hpp:117-125 | after `[` a count parses only from a digit-only identifier followed by `]`, and is its decimal value |
| `Grammar.HardcodeSlot` | src/parse.hpp:132-138 | on success at least one token is consumed |
| `Parse.Parser.ParseHardcodeSlot` | src/parse.hpp:132-138 | result and queue agree with `Grammar.HardcodeSlot`: an address or a comma is consumed |
| `Grammar.HardcodesLoop` | src/parse.hpp:128-145 | on success at least one token is consumed; what it writes is `FieldProperties.HardcodesRender` and `FieldProperties.HardcodesParsed` |
| `Parse.Parser.ParseHardcodes` | src/parse.hpp:128-145 | the counted slot loop, writing `hardcodes[k]` in place, agrees with `Grammar.HardcodesLoop` from slot 0 |
| `FieldProperties.HardcodesStep` | src/parse.hpp:132-144 | one hardcode slot (an address, or a comma of its own) and its separator: `;` ends the list, `,` goes on to the next slot |
| `FieldProperties.HardcodesRender` | src/parse.hpp:128-145 | a written hardcode list parses back into its slots from slot `k` on; any slot may be empty |
| `FieldProperties.HardcodesRoundTrip` | src/parse.hpp:128-145 | one to three hardcode slots written out after `=` parse back to those slots padded with empty ones |
| `FieldProperties.HardcodesParsed` | src/parse.hpp:128-145 | conversely every hardcode list that parses is such a written list of one to three slots |
| `FieldProperties.HardcodesWritten` | src/parse.hpp:128-145 | gives the slots that a parsed hardcode list was written from |
| `FieldProperties.HardcodesPrefix` | src/parse.hpp:128-145 | slots each followed by `,` are filled in order and leave the rest of the list to the loop at the next slot |
| `FieldProperties.HardcodesTooMany` | src/parse.hpp:128-130 | three slots each followed by `,` are `TooManySlots` |
| `FieldProperties.HardcodesTrailingComma` | src/parse.hpp:132-138 | hardcode slots each followed by a separating `,` and then `;` are `ExpectedAddress`, so a member's `= ;` fails |
| `FieldProperties.HardcodesEmptyLast` | src/parse.hpp:132-144 | an empty hardcode slot's own comma may stand right before `;`: `,;` is the empty list and `a,,;` the list a, empty, empty |
| `FieldProperties.HardcodesEmptySlot` | src/parse.hpp:132-144 | `a,,b;` fails with `ExpectedSeparator`, and `a,,,b;` is the hardcode list a, empty, b |
| `Grammar.ParseMemberEnd` | src/parse.hpp:146 | on success at least one token is consumed, the `;` |
| `Grammar.ParseMemberSlots` | src/parse.hpp:127-146 | on success at least one token is consumed; the choice it makes is `FieldProperties.MemberSlotsChoice` |
| `Parse.Parser.ParseMemberSlots` | src/parse.hpp:127-146 | result and queue left agree with `Grammar.ParseMemberSlots` |
| `FieldProperties.MemberSlotsChoice` | src/parse.hpp:127-146 | after `=` the hardcode list is read; otherwise a `;` is required and every slot stays empty |
| `Grammar.ParseMember` | src/parse.hpp:111-150 | on success at least one token is consumed; what it appends is `ClassProperties.ParseMemberAppends` |
| `Parse.Parser.ParseMember` | src/parse.hpp:111-150 | the queue left and the class after appending agree with `Grammar.ParseMember` on the old class, and a class that keeps the `in_order` invariant still keeps it |
| `Grammar.ParseQualifiers` | src/parse.hpp:158-171 | on success no token is gained; what it reads is `FieldProperties.QualifiersParsed` |
| `Parse.Parser.ParseQualifiers` | src/parse.hpp:158-171 | result and queue left agree with `Grammar.ParseQualifiers` |
| `FieldProperties.QualifiersOfPrefix` | src/parse.hpp:158-171 | none, `virtual`, `static`, `virtual static` and `static virtual` each give the matching (virtual, static) pair, consuming exactly those tokens |
| `FieldProperties.QualifiersParsed` | src/parse.hpp:158-171 | conversely whatever is accepted is such a prefix of at most two distinct qualifiers, and the flags say which it holds |
| `FieldProperties.QualifierCount` | src/parse.hpp:158-171 | how many qualifiers are consumed, as the tags of the first two tokens decide |
| `Grammar.TypeRunLoop` | src/parse.hpp:181-202 | on success the run gathered plus the tokens left are exactly the run so far plus the input, and the token left in front is not a type token |
| `Grammar.ParseDeclarator` | src/parse.hpp:181-213 | on success at least one token is consumed, and the token left in front is not a type token |
| `Parse.Parser.ParseDeclarator` | src/parse.hpp:181-213 | the greedy run loop and the type-text loop give the (type, name) pair and queue of `Grammar.ParseDeclarator` |
| `FieldProperties.TypeRunLoopRun` | src/parse.hpp:182-202 | the loop gathers exactly the maximal run of `*`, `&`, identifier, `const`, template, qualifier and destructor tokens |
| `FieldProperties.ParseDeclaratorMeaning` | src/parse.hpp:181-213 | the name is the last token of the maximal run and must be an identifier, the type is the joined text of the tokens before it, and an empty run is `ExpectedIdentifier` |
| `Grammar.ParseFieldPrefix` | src/parse.hpp:153-171 | on success no token is gained |
| `Parse.Parser.ParseFieldPrefix` | src/parse.hpp:153-171 | result and queue left agree with `Grammar.ParseFieldPrefix` |
| `Grammar.ParseDeclaredField` | src/parse.hpp:181-229 | on success at least one token is consumed; what it builds is `ClassProperties.DeclaredFieldOutcome` |
| `Parse.Parser.ParseDeclaredField` | src/parse.hpp:181-229 | the queue left and the class after appending agree with `Grammar.ParseDeclaredField`, and a class that keeps the `in_order` invariant still keeps it |
| `Grammar.ParseField` | src/parse.hpp:152-230 | on success at least one token is consumed; what it appends is `ClassProperties.ParseFieldAppends` |
| `Parse.Parser.ParseField` | src/parse.hpp:152-230 | the queue left and the class after appending agree with `Grammar.ParseField`, and a class that keeps the `in_order` invariant still keeps it |
| `ClassProperties.ParseFunctionAppends` | src/parse.hpp:215-222 | a parsed function is the one element appended, with the name, return type, qualifiers and mangle gathered before it |
| `ClassProperties.ParseMemberAppends` | src/parse.hpp:111-150 | a parsed member is the one element appended, with the declared type and name |
| `ClassProperties.DeclaredFieldOutcome` | src/parse.hpp:215-229 | a declaration becomes a function carrying the declarator and prefix, or a member carrying the declarator with neither qualifier |
| `ClassProperties.QualifiedMemberRejected` | src/parse.hpp:225-228 | `virtual` or `static` on a data member is `UnexpectedQualifier`, `virtual` reported first |
| `ClassProperties.ParseFieldAppends` | src/parse.hpp:152-230 | every field that parses appends exactly one function, member or inline block |
| `ClassProperties.AppendsOneShape` | src/parse.hpp:107-108 | appending one element keeps name, superclasses and every earlier element and entry, adds one `in_order` entry naming the new last element of the one list that grew, and keeps the `in_order` invariant |
| `ClassProperties.InlineDropsPrefix` | src/parse.hpp:173-179 | an inline block is appended as its slice, the attribute and qualifiers before it being dropped |
| `Ast.EmptyClass` | src/parse.hpp:233 | a fresh class has no superclasses, elements or entries and keeps the invariant |
| `Ast.ClassDefinition.constructor` | src/parse.hpp:233 | a new definition is the empty class and keeps the invariant |
| `Ast.ClassDefinition.AddSuperclass` | src/parse.hpp:239 | the new state is the old one with the name appended to the superclasses, and the `in_order` invariant is kept |
| `Ast.ClassDefinition.AddFunction` | src/parse.hpp:107-108 | the new state is the old one with the function and its `in_order` entry appended, and the `in_order` invariant is kept |
| `Ast.ClassDefinition.AddMember` | src/parse.hpp:148-149 | the new state is the old one with the member and its `in_order` entry appended, and the `in_order` invariant is kept |
| `Ast.ClassDefinition.AddInline` | src/parse.hpp:176-177 | the new state is the old one with the inline block and its `in_order` entry appended, and the `in_order` invariant is kept |
| `Ast.AddFunctionWf` | src/parse.hpp:107-108 | appending a function keeps the `in_order` invariant |
| `Ast.AddMemberWf` | src/parse.hpp:148-149 | appending a member keeps the `in_order` invariant |
| `Ast.AddInlineWf` | src/parse.hpp:176-177 | appending an inline block keeps the `in_order` invariant |
| `Ast.AddSuperclassWf` | src/parse.hpp:239 | appending a superclass keeps the `in_order` invariant |
| `Ast.WfLength` | src/parse.hpp:107-108 | under the invariant `in_order` is as long as the three lists together |
| `Ast.WfLive` | src/parse.hpp:107-108 | under the invariant every `in_order` entry names a live element |
| `Ast.WfOrdered` | src/parse.hpp:107-108 | under the invariant entries of one kind appear in list order, so no element is named twice |
| `Ast.WfComplete` | src/parse.hpp:107-108 | under the invariant every element of every list has an `in_order` entry |
| `Grammar.SuperclassesLoop` | src/parse.hpp:238-244 | on success at least one token is consumed; what it appends is `ClassProperties.SuperclassesParsed` |
| `Parse.Parser.ParseSuperclasses` | src/parse.hpp:238-244 | the superclass loop, appending in place, agrees with `Grammar.SuperclassesLoop` on the old class, and a class that keeps the `in_order` invariant still keeps it |
| `ClassProperties.SuperclassesParsed` | src/parse.hpp:238-244 | the list appends at least one non-empty superclass, keeps the earlier ones in order, and changes nothing else |
| `ClassProperties.SuperclassStep` | src/parse.hpp:239-243 | one name followed by `{` ends the list, followed by `,` goes on to the next name |
| `ClassProperties.SuperclassesRoundTrip` | src/parse.hpp:238-244 | non-empty names written with `,` and a closing `{` are appended in declaration order |
| `Grammar.ParseBodyStart` | src/parse.hpp:245-247 | on success at least one token is consumed, the `{` |
| `Grammar.BodyLoop` | src/parse.hpp:249-251 | on success at least one token is consumed, the `}` at least; what it keeps is `ClassProperties.BodyLoopExtends` |
| `Parse.Parser.ParseBody` | src/parse.hpp:249-251 | the body loop agrees with `Grammar.BodyLoop` on the old class, and a class that keeps the `in_order` invariant still keeps it |
| `ClassProperties.BodyLoopExtends` | src/parse.hpp:249-251 | the body keeps the name, the superclasses and every earlier element and entry, and keeps the `in_order` invariant |
| `Grammar.ParseClassHead` | src/parse.hpp:233-247 | on success at least one token is consumed; what it names is `ClassProperties.ParseClassHeadNames` |
| `Parse.Parser.ParseClassHead` | src/parse.hpp:233-247 | the queue left and the class after naming it and adding superclasses agree with `Grammar.ParseClassHead`, and a class that keeps the `in_order` invariant still keeps it |
| `ClassProperties.ParseClassHeadNames` | src/parse.hpp:233-247 | the head starts with `class` and gives the class the qualified name after it, which is not empty; it adds no element and keeps the invariant |
| `ClassProperties.ParseClassDefinitionWf` | src/parse.hpp:232-251 | a parsed class keeps the `in_order` invariant, and its name is the non-empty qualified name after `class` |
| `Grammar.ParseClassDefinition` | src/parse.hpp:232-251 | on success at least one token is consumed; what it builds is `ClassProperties.ParseClassDefinitionWf` |
| `Grammar.ParseClass` | src/parse.hpp:232-254 | on success at least one token is consumed, and the stored names become the earlier ones and the class's own name |
| `Parse.Parser.ParseClass` | src/parse.hpp:232-254 | the queue left and the map after storing the class agree with `Grammar.ParseClass` on the old map, and when every stored class kept the `in_order` invariant, every one still does |
| `ClassProperties.ParseClassStores` | src/parse.hpp:253 | storing a class writes one well-formed class under its own non-empty name, replacing what was there; no other entry changes |
| `Ast.Root.constructor` | src/parse.hpp:257 | a new root holds no class |
| `Grammar.ProgramLoop` | src/parse.hpp:263-265 | on success no earlier name is lost, and a non-empty queue leaves at least one class |
| `Grammar.ParseTokens` | src/parse.hpp:256-269 | no tokens give the empty program, and a program with tokens that parses holds at least one class |
| `Parse.ParseTokens` | src/parse.hpp:256-269 | queueing the tokens and parsing classes until the queue is empty gives `Grammar.ParseTokens`, and every class of a successful result keeps the `in_order` invariant |
| `ClassProperties.ProgramLoopFiled` | src/parse.hpp:263-265 | parsing classes keeps every class well formed and filed under its own non-empty name, and never drops a name |
| `ClassProperties.ParseTokensFiled` | src/parse.hpp:256-269 | every class of a parsed program is well formed and filed under its own non-empty name |
| `ClassProperties.EmptyProgram` | src/parse.hpp:263-268 | no tokens give an empty root |
| `ClassProperties.ProgramStep` | src/parse.hpp:263-265 | one parsed class is stored under its name before the loop goes on with the rest |
| `ClassProperties.LastDefinitionWins` | src/parse.hpp:253 | two classes of the same name give a root holding only the later one |
| `ClassProperties.ProgramLoopStores` | src/parse.hpp:263-265 | a parsed program is the classes it defines, one after the other, stored in order under their names |
| `ClassProperties.StoreKeys` | src/parse.hpp:253 | storing keeps every earlier name and adds exactly the names of the classes stored |
| `ClassProperties.StoreKeeps` | src/parse.hpp:253 | a name no later class is stored under keeps its class |
| `ClassProperties.StoreLast` | src/parse.hpp:253 | each name holds the last class stored under it |
| `ClassProperties.ParseTokensClasses` | src/parse.hpp:256-269 | a parsed program holds exactly the names of the classes it defines, each with the last of its definitions, so classes with distinct names are each kept as parsed |
| `Truncation.NextStable` | src/parse.hpp:10-17 | on a prefix of the queue `next` either reports the end of input or does what it does on the whole queue |
| `Truncation.PeekStable` | src/parse.hpp:19-25 | the same for `peek` |
| `Truncation.NextExpectStable` | src/parse.hpp:27-32 | the same for `next_expect`, whose extra pop on a mismatch is no exception |
| `Truncation.NextIfTypeStable` | src/parse.hpp:34-41 | the same for `next_if_type` |
| `Truncation.QualifiedNameLoopStable` | src/parse.hpp:45-47 | the same for the name loop |
| `Truncation.ParseQualifiedNameStable` | src/parse.hpp:43-52 | the same for `parseQualifiedName` |
| `Truncation.ParseMangleStable` | src/parse.hpp:55-60 | the same for the tail of a `mangle` attribute |
| `Truncation.ParseAttributeStable` | src/parse.hpp:53-67 | the same for `parseAttribute` |
| `Truncation.ArgumentLoopStable` | src/parse.hpp:74-76 | the same for the inner argument loop |
| `Truncation.ArgumentsLoopStable` | src/parse.hpp:72-81 | the same for the outer argument loop |
| `Truncation.BindSlotStable` | src/parse.hpp:91-98 | the same for one bind slot |
| `Truncation.BindsLoopStable` | src/parse.hpp:87-105 | the same for the bind loop |
| `Truncation.ParseParametersStable` | src/parse.hpp:70-84 | the same for the parameter list |
| `Truncation.ParseFunctionStable` | src/parse.hpp:69-109 | the same for `parseFunction` |
| `Truncation.ParseArrayCountStable` | src/parse.hpp:117-125 | the same for an array count |
| `Truncation.HardcodeSlotStable` | src/parse.hpp:132-138 | the same for one hardcode slot |
| `Truncation.HardcodesLoopStable` | src/parse.hpp:128-145 | the same for the hardcode loop |
| `Truncation.ParseMemberCountStable` | src/parse.hpp:114-125 | the same for the member count |
| `Truncation.ParseMemberSlotsStable` | src/parse.hpp:127-146 | the same for the member slots |
| `Truncation.ParseMemberStable` | src/parse.hpp:111-150 | the same for `parseMember` |
| `Truncation.ParseQualifiersStable` | src/parse.hpp:158-171 | the same for the qualifiers |
| `Truncation.TypeRunLoopStable` | src/parse.hpp:181-202 | the same for the type-and-name run loop |
| `Truncation.ParseDeclaratorStable` | src/parse.hpp:181-213 | the same for the declarator |
| `Truncation.ParseFieldPrefixStable` | src/parse.hpp:153-171 | the same for the attribute and qualifiers in front of a field |
| `Truncation.ParseDeclaredFieldStable` | src/parse.hpp:181-229 | the same for a declared function or member |
| `Truncation.ParseFieldStable` | src/parse.hpp:152-230 | the same for `parseField` |
| `Truncation.SuperclassesLoopStable` | src/parse.hpp:238-244 | the same for the superclass loop |
| `Truncation.BodyLoopStable` | src/parse.hpp:249-251 | the same for the body loop |
| `Truncation.ParseClassHeadStable` | src/parse.hpp:233-247 | the same for the class head |
| `Truncation.ParseClassDefinitionStable` | src/parse.hpp:232-251 | the same for a class definition |
| `Truncation.ParseClassStable` | src/parse.hpp:232-254 | the same for `parseClass` |
| `Truncation.CutDefinition` | src/parse.hpp:232-251 | a class definition cut off before its end is the end of input |
| `Truncation.TruncatedClass` | src/parse.hpp:232-265 | a class cut off anywhere before its closing `}` is the end of input, whatever classes were parsed before it |
| `Truncation.ProgramConcat` | src/parse.hpp:263-265 | a program that parses, followed by more tokens, goes on from the classes it stored |
| `Truncation.TruncatedProgram` | src/parse.hpp:256-269 | a parsed program followed by a cut-off class is the end of input |

## Left out

- `cacerr`: its message formatting and the process exit are left out. A failing
  routine returns the error kind instead, and nothing after it runs.
- The lexer: `lex.hpp` is not part of this model. A parse starts from a finite
  sequence of tokens, each a tag and a slice. Every token tag the parser does
  not look at is `Other`.
- The AST header: `ast.hpp` is not part of this model. Its types are defined
  from their use in `parse.hpp`.
  - `addSuperclass` is modelled as an append to the superclass list.
  - The bind and hardcode arrays are three-slot values that the loops write
    one slot at a time. Each starts empty.
  - Fields `parse.hpp` never writes start from chosen defaults: a function's
    `is_const` starts false and its argument list empty, and a member's count
    is 1 unless an array count is given.
- `in_order` pointers: the source stores raw pointers into growing vectors of
  a local object, which is then copied into the map, so the pointers dangle.
  Entries here are (kind, index) pairs. The model proves the index invariant
  `ClassValue.Wf`, not pointer aliasing.
- `std::queue` and `std::map` internals: the queue is a sequence and the root
  is a map.
- `ClassDefinition` copies: the map stores a value copy of the class.
- `Grammar.DecimalValue`: reads a digit string as an unbounded natural number.
  The overflow and saturation of `strtoll` are not modelled.
- `FieldProperties.BindsParsed`: the converse holds for canonical tokens only.
  That is, a `,`/`;` token spelt `,`/`;` and a non-empty address.
- `FieldProperties.HardcodesParsed`: the same restriction to canonical tokens.
- `FieldProperties.BindsWritten`: the same restriction to canonical tokens.
- `FieldProperties.HardcodesWritten`: the same restriction to canonical tokens.
- `ClassProperties.LastDefinitionWins`: stated for a program of two classes.
  `ClassProperties.ParseTokensClasses` gives the general result.
