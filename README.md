# Pluto interpreter back end, modelled in Dafny

This project models the core of the back end of the Pluto interpreter, which is written in Go:

- **Instruction set.** One-byte opcodes, the table giving each opcode its display name and whether a 16-bit operand follows, and the big-endian operand encoding. Module `Bytecode`, file `bytecode.dfy`.
- **Expression compiler.** A single-pass tree walk that appends bytecode to a byte buffer, adds entries to an append-only constant pool and a name table, and compiles `if` by patching two jump placeholders. Modules `Compiling` (`compiler.dfy`), `CompilerProperties` (`compiler_properties.dfy`) and `EarlyCompiling` (`compiler_early.dfy`).
- **Runtime objects.**
  - Structural equality.
  - Forgiving index and key access.
  - Hash-keyed maps that keep the original keys beside the values.
  - Instance fields.
  - Class method lookup by a space-separated pattern.
  - Rendering of a function value.

  Modules `Objects` (`objects.dfy`) and `Containers` (`containers.dfy`). Go's `strings.Split` and `strings.Join` are modelled in `Text` (`text.dfy`).
- **Scope chain.** A chain of frames with `Get`, `Declare`, `Assign`, `Enclose`, `EncloseWith`, `AddFunction` and `GetFunction`. Module `Scopes`, file `context.dfy`.

`ast.dfy` holds the part of the syntax tree these operations read.

## Design

**Opcodes and the table.**
- Opcodes are byte constants. Each is written as `position + offset` to mirror Go's `iota`. In the operator block `iota` is already 3 when `BinaryAdd` restarts the offset at 25. So the binary operators run from 28 to 44, although the comment on the operator block gives the range 20-39.
- The table is the function `Info`. An opcode without an entry (only `PushQualFn`) yields the zero entry, as a Go map lookup does.

**Compiler.**
- The compiler is a class, `Compiling.Compiler`, with fields `Bytes`, `Constants` and `Names`. Each method that compiles an expression is proved to leave exactly the state, and report exactly the error, that the function `Compiling.Compile` gives for the expression and the state before the call. The helper `AppendConstant` is tied to the function `Literal` instead, and `CompileStatement` to the statement stand-in.
- `Compile` states the byte layout directly. For example, an `if` is `cond, JumpIfFalse a, cons, Jump b, alt` (the function `IfCode` gives the part after `cond`), while `CompileIf` appends zero placeholders and patches them in place. The properties of the compiler are lemmas about `Compile`.
- The two compiler files are two revisions of `CompileExpression`, `compileNumber` and `compileInfix`:
  - The class follows `compiler/expressions.go`, with the constructor from `compiler/compiler.go`.
  - The earlier revision is the function `EarlyCompiling.CompileEarly`. It is proved to agree with the later revision on numbers combined with `+` and `-`, and shown to differ on `*` and on a string literal.

**Runtime objects.**
- Objects are a datatype.
- Tuple and Array slots, the Map's `Values` and `Keys`, and an Instance's `Data` are updated in place. Those updates are methods of the classes `Containers.Collection`, `Containers.MapObject` and `Containers.InstanceObject`.
- The `Hasher` capability is a parameter `hasher: Object -> Option<string>`. `None` means the key cannot be hashed.

**Scope chain.**
- The chain seen from one context is a sequence of frames. Index 0 is the context itself and the last element is the root.
- A frame's store is `Option<map>`, with `None` standing for Go's nil map.
- `Get` and `GetFunction` are functions on the chain. `Declare`, `Assign` and `AddFunction` are methods of `Scopes.Context`, which updates its frames in place. `Enclose` and `EncloseWith` return a fresh context.

**Behaviour modelled literally.**
- `Assign` writes to the outermost frame that binds the name, not the nearest one. The lemma `AssignShadowed` shows that whenever the current frame and an outer frame both bind the name, the assigned value is not visible from the assigning frame.
- `GetFunction` rejects every call item that is not an Identifier. The placeholder branch at `context/context.go:78-82` needs an item that is both an Argument and a Parameter.
- Instance equality inspects only the receiver's fields, so it is not symmetric (`InstanceEqualsAsymmetric`).
- `compileIdentifier` has no overflow check on the name index, and `compileIf` has none on its jump offsets. The lemmas state those operands modulo 1 << 16.

## Model

| member | source | states |
|---|---|---|
| Bytecode.Info | bytecode/instruction-data.go:9-63 | the instruction table as a lookup; its properties are stated by `TableCoverage`, `HasArgExactly` and `NameRoundTrip` |
| Bytecode.HasArg | bytecode/instruction-data.go:9-63 | the table's operand flag; `HasArgExactly` lists the opcodes that carry one |
| Bytecode.Name | bytecode/instruction-data.go:9-63 | the table's display name; `NameRoundTrip` and `NamesInjective` show it identifies the opcode |
| Bytecode.OpcodesDistinct | bytecode/instructions.go:4-132 | the opcode constants strictly increase in declaration order, so they are pairwise distinct, and the largest is `Use` at 110 |
| Bytecode.OpcodeValues | bytecode/instructions.go:4-132 | the concrete byte value of every opcode as `iota` computes it; the binary operators run from 28 (`BinaryAdd`) to 44 (`BinaryMoreEq`) |
| Bytecode.TableCoverage | bytecode/instruction-data.go:9-63 | an opcode has a table entry exactly when it is declared and is not `PushQualFn`; looking up `PushQualFn` yields the zero entry (empty name, no operand) |
| Bytecode.HasArgExactly | bytecode/instruction-data.go:9-63 | the table flags an operand for exactly LoadConst, LoadName, StoreName, PushFn, Jump, JumpIfTrue, JumpIfFalse, MakeArray, MakeTuple, MakeMap and Use |
| Bytecode.NameRoundTrip | bytecode/instruction-data.go:10-62 | looking up the display name of any opcode with an entry gives back that opcode |
| Bytecode.NamesInjective | bytecode/instruction-data.go:10-62 | two opcodes with entries and the same display name are the same opcode |
| Bytecode.Operand | compiler/expressions.go:49-51 | a decoded big-endian operand is below 1 << 16 |
| Bytecode.OperandRoundTrip | compiler/expressions.go:49-51 | encoding an index as (high, low) bytes and decoding it gives its low 16 bits, so an index below 1 << 16 comes back unchanged |
| Bytecode.WellFormedAppend | bytecode/instruction-data.go:9-63 | two streams of whole instructions (each operand-carrying opcode followed by two bytes) concatenate into one |
| Bytecode.SingleInstruction | bytecode/instruction-data.go:9-63 | an opcode with its two operand bytes is a whole instruction when the table flags an operand; an opcode alone is one when it does not |
| Text.Split | evaluation/compound.go:307 | splitting always yields at least one piece, and no piece contains the separator |
| Text.Join | object/function.go:49 | `strings.Join` with a one-character separator; `JoinSplit` and `SplitJoin` relate it to `Split` |
| Text.JoinSplit | evaluation/compound.go:307 | joining the pieces of a split with the separator gives back the string |
| Text.SplitJoin | object/function.go:49 | splitting a join of one or more separator-free words gives back the words |
| Objects.TypeOf | object/function.go:27 | the type tag is FunctionType exactly for functions, and TupleType and ArrayType exactly for tuples and arrays |
| Objects.Equals | evaluation/compound.go:55-142 | structural equality of compound objects, with the receiver deciding; its properties are stated by `EqualsSameType`, `EqualsReflexive`, `TupleNeverArray`, `MapEqualsSameHashes`, `InstanceEqualsAsymmetric` and `EqualsByKind` |
| Objects.EqualsSameType | evaluation/compound.go:55-142 | equal objects have the same type tag |
| Objects.EqualsReflexive | evaluation/compound.go:55-142 | every object equals itself, through nested tuples, arrays, maps and instance fields |
| Objects.TupleNeverArray | evaluation/compound.go:55-89 | a Tuple never equals an Array and an Array never equals a Tuple, whatever their elements |
| Objects.MapEqualsSameHashes | evaluation/compound.go:91-111 | map equality, which checks an equal count and the receiver's hashes only, forces both maps to hold the same set of hashes |
| Objects.InstanceEqualsAsymmetric | evaluation/compound.go:126-142 | an instance with fewer fields can equal one with more while the converse fails: fields only the other instance has are never inspected, and a missing field never equals |
| Objects.EqualsByKind | evaluation/compound.go:113-124 | any Block equals exactly the Blocks and a Class exactly the Classes of the same name (`Block.Equals`, `Class.Equals`); any Function equals exactly the Functions whatever their pattern, body or constants (`Function.Equals`, object/function.go lines 32-35) |
| Objects.GetIndex | evaluation/compound.go:214-240 | the result is Null or one of the collection's elements; `ForgivingReads` gives both cases |
| Objects.MapGet | evaluation/compound.go:251-261 | the result is Null or one of the map's stored values |
| Objects.InstanceGet | evaluation/compound.go:271-281 | the result is Null or one of the instance's field values |
| Objects.ForgivingReads | evaluation/compound.go:214-281 | `GetIndex` out of range, `Map.Get` of an unhashable or absent key, and `Instance.Get` of a non-String key return Null; `GetIndex` in range returns the slot |
| Objects.OwnMethods | evaluation/compound.go:297-301 | the methods kept from a member list are exactly its `Method` entries |
| Objects.OwnMethodsAppend | evaluation/compound.go:297-301 | the kept methods of two member lists are the kept methods of each, in order, and a single member gives its function exactly when it is a `Method`; so every `Method` entry is kept once, in member order |
| Objects.GetMethods | evaluation/compound.go:290-304 | the methods of the class's ancestry, parents first; stated by `GetMethodsFromAncestry` with `OwnMethodsAppend` |
| Objects.GetMethodsFromAncestry | evaluation/compound.go:290-304 | `GetMethods` returns exactly the methods of the class and its ancestors: the parent chain's methods, followed by exactly the class's own kept methods in member order |
| Objects.ItemMatches | evaluation/compound.go:312-324 | one word of the looked-up pattern against one pattern item: `$` matches a Parameter and a word matches an Identifier with that text; `FirstMatch` and `GetMethodFindsRendered` state its use |
| Objects.PatternMatches | evaluation/compound.go:312-324 | the pattern loop: equal length and every word matching its item |
| Objects.FirstMatch | evaluation/compound.go:309-331 | the method found has a matching pattern and no earlier method does; nothing is found exactly when no method matches |
| Objects.GetMethod | evaluation/compound.go:306-332 | a method found belongs to the class's ancestry and its pattern matches the words of the space-split pattern; `FirstMatch` adds that it is the first such method |
| Objects.ParentMethodsFirst | evaluation/compound.go:290-304 | when the parent chain has a method matching a pattern, `GetMethod` returns that one, whatever the class's own methods are |
| Objects.GetMethodFindsRendered | evaluation/compound.go:306-332 | looking up the rendering (with `$` for parameters) of an ancestry method whose pattern has Identifiers and Parameters without spaces finds a method whose pattern matches those rendered words |
| Objects.EmptyPatternNeverFound | evaluation/compound.go:306-332 | a method with an empty pattern is never found, since a split pattern has at least one word |
| Objects.PatternWords | object/function.go:41-47 | one word per pattern item, in order: `$` for a Parameter, the token literal otherwise |
| Objects.FunctionString | object/function.go:38-50 | the rendering starts with `<function: ` and ends with `>`; `FunctionStringWords` gives the words in between |
| Objects.FunctionStringWords | object/function.go:38-50 | the rendering is `<function: ` + words + `>`; an empty pattern gives `<function: >`; with space-free tokens the words split back into the pattern's words |
| Containers.Collection.SetIndex | evaluation/compound.go:222-228 | out of range nothing changes; in range only slot `i` is replaced and `GetIndex(i)` then returns the new object; the length never changes |
| Containers.MapObject.Set | evaluation/compound.go:263-269 | a hashable key writes `Values[h]` and `Keys[h]` for the same hash, keeping both maps on the same hashes with each key under its own hash; an unhashable key changes nothing; `Get` of the key then returns the value |
| Containers.InstanceObject.Set | evaluation/compound.go:283-287 | only a String key writes its field, which `Get` then returns; any other key leaves the fields unchanged |
| Containers.MapSetFrame | evaluation/compound.go:251-269 | a `Set` leaves `Get` unchanged for every key with a different hash |
| Scopes.Get | context/context.go:28-36 | a value found is the binding of the name in some frame of the chain; `GetNearest` adds that it is the nearest one |
| Scopes.GetNearest | context/context.go:28-36 | `Get` returns the binding of the nearest frame whose store binds the name, and nil exactly when no frame binds it |
| Scopes.Enclosed | context/context.go:15-19 | `Enclose` adds a frame with a nil store and no functions whose outer is the receiver's chain, which is unchanged |
| Scopes.EnclosedWith | context/context.go:21-26 | `EncloseWith` adds a frame whose store is exactly the arguments, over the receiver's unchanged chain |
| Scopes.GetThroughEnclose | context/context.go:15-36 | through `Enclose` every name resolves as before; through `EncloseWith` the arguments shadow the outer bindings |
| Scopes.AssignTarget | context/context.go:38-47 | the frame `Assign` writes exists, and any frame other than the current one binds the name |
| Scopes.AssignTargetOutermost | context/context.go:38-47 | `Assign` writes the outermost frame that binds the name (no frame beyond it binds it), and the current frame when no outer frame binds it |
| Scopes.GetAfterBind | context/context.go:38-51 | after a write to a frame, lookup from that frame finds the new value, lookup from the current frame does when no nearer frame binds the name, and other names resolve as before |
| Scopes.AssignShadowed | context/context.go:38-47 | whenever the current frame and some outer frame both bind a name, `Assign` writes an outer frame and `Get` from the current frame still returns the old value |
| Scopes.ItemCompatible | context/context.go:72-82 | the branches of the call-item test, written as in the source; `ItemCompatibleExactly` states which call items pass |
| Scopes.ItemCompatibleExactly | context/context.go:72-82 | a call item is compatible exactly when it is an Identifier and, against an Identifier, has the same name; every other call item is rejected |
| Scopes.FirstCompatible | context/context.go:62-88 | the function found in a frame is compatible and is the first compatible one in registration order; nothing is found exactly when no function of the frame is compatible |
| Scopes.NonIdentifierCallFindsNothing | context/context.go:61-95 | a call pattern with any non-identifier item finds no function anywhere in the chain |
| Scopes.GetFunction | context/context.go:61-95 | a function found is compatible with the call pattern |
| Scopes.GetFunctionFound | context/context.go:61-95 | a found function is the first compatible one, in registration order, of some frame, and no nearer frame holds a compatible function |
| Scopes.GetFunctionNone | context/context.go:61-95 | `GetFunction` returns nil exactly when no frame of the chain holds a compatible function |
| Scopes.GetFunctionThroughEnclose | context/context.go:15-26 | enclosing adds no functions, so function lookup is unchanged through a new frame |
| Scopes.Context.Enclose | context/context.go:15-19 | returns a fresh context whose chain is the receiver's with a nil-store frame in front |
| Scopes.Context.EncloseWith | context/context.go:21-26 | returns a fresh context whose chain is the receiver's with a frame storing exactly the arguments in front |
| Scopes.Context.Declare | context/context.go:49-51 | writes the current frame's store only, leaving every other frame unchanged, and `Get` then returns the value |
| Scopes.Context.Assign | context/context.go:38-47 | writes only the frame `AssignTarget` picks, after which lookup from that frame finds the value; other names are unaffected |
| Scopes.Context.AddFunction | context/context.go:53-59 | appends the function to the current frame's list only; requires a Function, as anything else panics |
| Compiling.Initial | compiler/compiler.go:20-25 | the state `New` creates has no bytes, sixteen nil constant slots and no names |
| Compiling.IndexOf | compiler/expressions.go:121-132 | the first index holding the name, or the length when the name is absent |
| Compiling.InfixOpcode | compiler/expressions.go:172-185 | an infix operator compiles to a binary-operator opcode or, when missing from the table, to 0 |
| Compiling.PrefixOpcode | compiler/expressions.go:197-201 | a prefix operator compiles to a unary-operator opcode or, when missing from the table, to 0 |
| Compiling.Compile | compiler/expressions.go:13-242 | compilation only appends: the bytes, constants and names present before are kept as a prefix |
| Compiling.IfCode | compiler/expressions.go:213-241 | the rest of an `if` keeps the condition's bytes as a prefix and touches neither constants nor names |
| Compiling.Literal | compiler/expressions.go:40-54 | a literal appends exactly its own constant, keeps the names and only appends bytes |
| Compiling.Compiler.New | compiler/compiler.go:20-25 | the new compiler's state is `Initial()` |
| Compiling.Compiler.CompileExpression | compiler/expressions.go:13-38 | dispatches on the node kind and leaves the state and error that `Compile` gives; unsupported kinds report "not yet implemented" |
| Compiling.Compiler.AppendConstant | compiler/expressions.go:41-53 | appends the constant and emits `LoadConst` of its index, or reports the overflow without emitting |
| Compiling.Compiler.CompileNumber | compiler/expressions.go:40-54 | leaves the state and error that `Compile` gives for a number |
| Compiling.Compiler.CompileString | compiler/expressions.go:56-70 | leaves the state and error that `Compile` gives for a string |
| Compiling.Compiler.CompileBoolean | compiler/expressions.go:72-86 | leaves the state and error that `Compile` gives for a boolean |
| Compiling.Compiler.CompileChar | compiler/expressions.go:88-102 | leaves the state and error that `Compile` gives for a char |
| Compiling.Compiler.CompileNull | compiler/expressions.go:104-118 | leaves the state and error that `Compile` gives for null |
| Compiling.Compiler.CompileIdentifier | compiler/expressions.go:120-140 | its scan of the names finds the first slot holding the name, and the method leaves the state `Compile` gives |
| Compiling.Compiler.CompileAssign | compiler/expressions.go:142-159 | leaves the state and error that `Compile` gives for an assignment |
| Compiling.Compiler.CompileInfix | compiler/expressions.go:161-190 | leaves the state and error that `Compile` gives for an infix operation |
| Compiling.Compiler.CompilePrefix | compiler/expressions.go:192-206 | leaves the state and error that `Compile` gives for a prefix operation |
| Compiling.Compiler.CompileStatement | compiler/expressions.go:217 | appends the statement's bytes, touches neither constants nor names, and fails exactly when the statement does |
| Compiling.Compiler.CompileIf | compiler/expressions.go:208-242 | appending placeholders and patching them in place leaves exactly the layout `Compile` gives for an `if` |
| CompilerProperties.LiteralLayout | compiler/expressions.go:40-118 | a literal appends one constant; below 1 << 16 it emits exactly `LoadConst` with an operand decoding to the new index; otherwise it reports the overflow with the constant appended and no bytes |
| CompilerProperties.IdentifierIdempotent | compiler/expressions.go:120-140 | `LoadName`'s operand names a slot holding the identifier (modulo 1 << 16); a name is added only when absent; compiling it again adds no name and emits the same bytes |
| CompilerProperties.IndexOfAppend | compiler/expressions.go:123-132 | a name is absent exactly when its first index is the length, and appending it leaves its first index unchanged |
| CompilerProperties.AssignFreshSlot | compiler/expressions.go:142-159 | after its value compiles, an assignment always appends a fresh slot holding the name, even for a known name, and emits `StoreName` whose operand decodes to exactly that new slot index (never an older slot holding the same name), or reports the overflow; a failing value adds nothing further |
| CompilerProperties.EmittedOpcodesAgreeWithTable | compiler/expressions.go:161-206 | `%` and `//` compile to `BinaryFloorDiv`; every infix operator outside the table's twelve (such as `!=` and `<`) and every prefix operator other than `+`, `-` and `!` compiles to 0; every operator opcode takes no operand in the table, while LoadConst, LoadName, StoreName, Jump and JumpIfFalse take one |
| CompilerProperties.IfJumpTargets | compiler/expressions.go:208-242 | a successful `if` is the condition, `JumpIfFalse` with the offset of the alternative's first byte, the consequence, `Jump` with the offset just past the alternative, then the alternative |
| CompilerProperties.IfBranchFails | compiler/expressions.go:217-233 | when a branch fails, the placeholder not yet patched stays zero, and the `JumpIfFalse` target is already set when only the alternative fails |
| CompilerProperties.UnsupportedUnchanged | compiler/expressions.go:35-36 | an unsupported node kind reports "not yet implemented" with its kind and changes neither bytes, constants nor names |
| CompilerProperties.CompileWellFormed | compiler/expressions.go:13-242 | from a well-formed stream, compilation (successful or not) leaves a well-formed stream when the branch statements compile to well-formed code |
| CompilerProperties.OnePlusTwo | compiler/expressions.go:161-190 | `1 + 2` compiled by a new compiler gives bytes `10 0 16 10 0 17 28` and constants 16 and 17 |
| EarlyCompiling.EarlyInfixOpcode | compiler/compiler.go:66-73 | the early table gives `BinaryAdd` or `BinarySubtract`, and 0 exactly for operators other than `+` and `-` |
| EarlyCompiling.CompileEarly | compiler/compiler.go:28-78 | the early revision only appends bytes and constants and never touches names |
| EarlyCompiling.EarlyAgrees | compiler/compiler.go:28-78 | on numbers combined with `+` and `-` the early and later revisions compile identically (byte 10 is `LoadConst`) |
| EarlyCompiling.EarlyDiffers | compiler/compiler.go:66-75 | `*` compiles to 0 in the early revision but to `BinaryMultiply` in the later one; a string literal is unsupported early and compiles later |

## Left out

- The lexer, the parser, the syntax-tree printer and the REPL are not part of this model.
- The virtual machine is not part of this model: execution, truthiness, calls, blocks and the loop stack. No execution semantics are modelled.
- Statement compilation (`CompileStatement`) is not part of this model. A statement is represented by the bytes its compilation appends and whether it fails.
- The Go type assertion `node.Name.(*ast.Identifier)` in `compileAssign` is not modelled. An assignment target is taken to be a name, so the panic on any other target is not modelled.
- Numbers are kept as opaque 64-bit patterns (`Float`). No floating-point arithmetic or formatting is modelled.
- Object string conversion is left out: `Tuple.String`, `Array.String`, `Map.String` (which iterates a Go map in unspecified order) and `Instance.String` (which calls the evaluator).
- The `Hash()` implementations are not part of this model; the hasher is a parameter.
- `runeToBytes` is not part of this model. It is taken to produce `(i / 256) % 256` and `i % 256`.
- `Function.OnCall`, a native callback hook, is left out.
- Objects.Equals: equality of the leaf objects (numbers, strings, booleans, chars, null, and the method wrapper) is not part of this model. It is taken to be equality of kind and payload. For numbers that is equality of the 64-bit pattern, not floating-point `==`: NaN equals itself and +0.0 differs from -0.0. So `EqualsReflexive` describes the model, not the program, for objects that contain NaN.
- A class's parent and an instance's base are typed as classes, which the source's `.(*Class)` assertions assume. The panic on any other object is not modelled.
- Containers.Collection.SetIndex, Containers.MapObject.Set, Containers.InstanceObject.Set: object sharing is not captured. In the source every object is a pointer, so an Array, Map or Instance updated in place is seen changed through every other object that holds it. In the model, objects are values and a container holds its elements by value, so an update is seen only through the container updated.
- One function type (`FunctionValue`) stands for both the function object of `object/function.go` and the function wrapped by an evaluation `Method`.
- The scope chain is a value per context. In the source, child contexts share their outer frames by pointer, so a write made through one context is seen by every context whose chain contains that frame. That sharing is not modelled.
- Scopes.Context.Declare: a nil store panics in the source; the model requires a store instead. Declaring nil as a value is not modelled (objects are never nil).
- Scopes.Context.Assign: an assignment that lands in a nil current store panics in the source; the model requires a store in that case.
- Scopes.Context.AddFunction: the source panics when the object added is not a function; the model requires a Function instead, so the panic is not modelled.
- Compiling.Compiler.CompileIdentifier: name indexes of 1 << 16 and above are not flagged, as in the source. The emitted operand keeps only the low 16 bits (see `IdentifierIdempotent`).
- Compiling.Compiler.CompileIf: jump offsets of 1 << 16 and above wrap in the same way (see `IfJumpTargets`).
- The early revision's methods (`compiler/compiler.go:28-78`) are modelled by the function `CompileEarly` rather than as a second set of methods on the class. They work on the same state as the later methods.
