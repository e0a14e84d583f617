# ReflectorGenerator, modelled in Dafny

Groovy's `ReflectorGenerator` writes a class that extends
`org/codehaus/groovy/runtime/Reflector`. It works from an ordered list of
`MetaMethod` descriptors. The emitted class has three parts:

- a public no-argument constructor;
- a public `invoke(MetaMethod, Object, Object[])` method. It reads the
  descriptor's method index and routes it through a `lookupswitch` to one case
  per descriptor, or to a default case that calls `noSuchMethod`;
- one private helper `m<i>` per descriptor. Each helper unpacks the argument
  array, casts or unboxes each argument, makes a static, virtual or interface
  call, boxes the result, and returns it. For a `void` call it returns `null`.

While it builds the switch, the generator also writes each descriptor's method
index in place.

The model keeps the generator's imperative form:

- `Generator.ReflectorGenerator` is a class with the source's fields `methods`,
  `cv` and `classInternalName`. `classInternalName` is `None` until `Generate`
  sets it.
- Its methods emit, step by step, into a `Bytecode.ClassVisitor`. That visitor
  records every ASM or `BytecodeHelper` call as one `Instr` value appended to a
  single sequence. The method visitors append to the same stream, bracketed by
  `BeginMethod` (`visitMethod`) and `EndMethod` (`visitEnd`).
- `Meta.MetaMethod` is a class with read-only descriptor facts and a mutable
  `methodIndex`.
- `NumberMethods` fills the `labels` and `indices` arrays in a loop, as the
  source does.

Every emitting method is proved to append exactly the code that a function of
module `ReflectorCode` describes. The lemmas of `ReflectorProperties` then say
what that code is:

- the switch keys are 1..N, strictly increasing, and paired with the case labels;
- every key routes to the helper for that key or to `noSuchMethod`, and no case
  falls through;
- each helper's shape, including the `null` pushed for `void` calls and only for them;
- which call shape each descriptor gets;
- the argument unpacking;
- the exact list of declared methods.

A `lookupswitch` is given its meaning from section 6.5 of the Java Virtual
Machine Specification (`SwitchTarget`), and a label its position (`FindMark`).

A static descriptor gets `INVOKESTATIC`, on its interface class when one is
present (`ReflectorGenerator.java:140-154`); `ThunkShape` states this.

## Model

| member | source | states |
|---|---|---|
| `Generator.ReflectorGenerator.constructor` | groovy/groovy-core/groovy-core/src/main/org/codehaus/groovy/classgen/ReflectorGenerator.java:34-41 | keeps the descriptor list; `cv` and `classInternalName` start out unset |
| `Generator.ReflectorGenerator.Generate` | groovy/groovy-core/groovy-core/src/main/org/codehaus/groovy/classgen/ReflectorGenerator.java:43-58 | stores `cv` and the class's internal name; appends exactly the whole class; afterwards every descriptor carries one plus its last position in the list, and over a list without repeats descriptor i carries i + 1 |
| `Generator.ReflectorGenerator.EmitConstructor` | groovy/groovy-core/groovy-core/src/main/org/codehaus/groovy/classgen/ReflectorGenerator.java:49-53 | appends the public `<init> ()V` declaration, `ALOAD 0`, `INVOKESPECIAL Reflector.<init> ()V` and `RETURN`, and nothing else |
| `Generator.ReflectorGenerator.GenerateInvokeMethod` | groovy/groovy-core/groovy-core/src/main/org/codehaus/groovy/classgen/ReflectorGenerator.java:60-136 | appends the `invoke` method followed by the helpers m0 .. m(N-1) in list order, and leaves every descriptor numbered |
| `Generator.ReflectorGenerator.EmitDispatch` | groovy/groovy-core/groovy-core/src/main/org/codehaus/groovy/classgen/ReflectorGenerator.java:61-115 | appends the whole `invoke` method for N descriptors (prologue, switch, N cases, default, end) and numbers the descriptors |
| `Generator.ReflectorGenerator.NumberMethods` | groovy/groovy-core/groovy-core/src/main/org/codehaus/groovy/classgen/ReflectorGenerator.java:80-89 | returns fresh arrays: labels[i] is the label of case i and indices[i] is i + 1 (the index read back right after it is set); every descriptor's index is one plus its last position, since a later `setMethodIndex` on the same object overwrites an earlier one |
| `Generator.ReflectorGenerator.NumberMethod` | groovy/groovy-core/groovy-core/src/main/org/codehaus/groovy/classgen/ReflectorGenerator.java:85-88 | one round of the loop: given the first i descriptors numbered and the first i table entries filled, it fills entry i of both tables (the label of case i, the index i + 1 read back) and leaves the first i + 1 descriptors numbered, each with one plus its last position among them |
| `Generator.ReflectorGenerator.NumberedWhenDistinct` | groovy/groovy-core/groovy-core/src/main/org/codehaus/groovy/classgen/ReflectorGenerator.java:84-89 | once numbered, a list of pairwise distinct descriptors has `methods[i].methodIndex == i + 1` for every i |
| `Generator.ReflectorGenerator.DispatchReachesDescriptor` | groovy/groovy-core/groovy-core/src/main/org/codehaus/groovy/classgen/ReflectorGenerator.java:84-134 | end to end, over a numbered list without repeats: descriptor i carries index i + 1; the switch on that index reaches a placed label followed by the call of `m<i>` and `ARETURN`; `m<i>` is declared exactly once in the class; and the method declared there, up to its end with no other method boundary between, contains the call that descriptor i describes |
| `Generator.ReflectorGenerator.EmitCases` | groovy/groovy-core/groovy-core/src/main/org/codehaus/groovy/classgen/ReflectorGenerator.java:94-103 | appends, for i = 0 .. N-1 in order, the label of case i, `INVOKESPECIAL` of this class's `m<i>` with the uniform signature, and `ARETURN` |
| `Generator.ReflectorGenerator.EmitHelpers` | groovy/groovy-core/groovy-core/src/main/org/codehaus/groovy/classgen/ReflectorGenerator.java:117-135 | appends one helper per descriptor, in list order |
| `Generator.ReflectorGenerator.EmitHelper` | groovy/groovy-core/groovy-core/src/main/org/codehaus/groovy/classgen/ReflectorGenerator.java:118-134 | appends the private declaration of `m<i>`, the call thunk, `ACONST_NULL` when the return type is `void`, `ARETURN`, and the end of the method |
| `Generator.ReflectorGenerator.InvokeMethod` | groovy/groovy-core/groovy-core/src/main/org/codehaus/groovy/classgen/ReflectorGenerator.java:138-163 | appends exactly the thunk of the descriptor: receiver load and cast for instance calls, the parameters, the call, the boxing |
| `Generator.ReflectorGenerator.LoadParameters` | groovy/groovy-core/groovy-core/src/main/org/codehaus/groovy/classgen/ReflectorGenerator.java:165-183 | appends the unpacking of every parameter, in declared order, from the array in local `argumentIndex` |
| `ReflectorProperties.SwitchKeysAt` | groovy/groovy-core/groovy-core/src/main/org/codehaus/groovy/classgen/ReflectorGenerator.java:83-88 | the key table has N entries and entry i is i + 1 |
| `ReflectorProperties.SwitchKeysIncreasing` | groovy/groovy-core/groovy-core/src/main/org/codehaus/groovy/classgen/ReflectorGenerator.java:88-92 | the key table is strictly increasing, as `lookupswitch` requires |
| `ReflectorProperties.CaseLabelsAt` | groovy/groovy-core/groovy-core/src/main/org/codehaus/groovy/classgen/ReflectorGenerator.java:82-85 | the label table has N entries and entry i is the label of case i |
| `ReflectorProperties.SwitchTargetSpec` | groovy/groovy-core/groovy-core/src/main/org/codehaus/groovy/classgen/ReflectorGenerator.java:92 | a `lookupswitch` goes to the target paired with the first key equal to the operand, and to the default when no key matches |
| `ReflectorProperties.SwitchSelects` | groovy/groovy-core/groovy-core/src/main/org/codehaus/groovy/classgen/ReflectorGenerator.java:82-92 | the two tables have equal length; key k selects the label of case k - 1 when 1 <= k <= N and the default label otherwise |
| `ReflectorProperties.FindMarkSpec` | groovy/groovy-core/groovy-core/src/main/org/codehaus/groovy/classgen/ReflectorGenerator.java:96 | a label's position is its first placement in the code, or -1 when it is never placed |
| `ReflectorProperties.LastIndexOfSpec` | groovy/groovy-core/groovy-core/src/main/org/codehaus/groovy/classgen/ReflectorGenerator.java:84-89 | the last position of a descriptor holds it and no later position does; -1 exactly when it does not occur |
| `ReflectorProperties.LastIndexOfDistinct` | groovy/groovy-core/groovy-core/src/main/org/codehaus/groovy/classgen/ReflectorGenerator.java:84-89 | in a list without repeats, every element's last position is its own position |
| `ReflectorProperties.DispatchLayout` | groovy/groovy-core/groovy-core/src/main/org/codehaus/groovy/classgen/ReflectorGenerator.java:63-115 | `invoke` has 12 + 3N instructions: its declaration, `ALOAD 0..3`, `ALOAD 1`, the `getMethodIndex` call, the switch at 7, case i at 8 + 3i, then the default case and the end |
| `ReflectorProperties.DispatchMarks` | groovy/groovy-core/groovy-core/src/main/org/codehaus/groovy/classgen/ReflectorGenerator.java:94-106 | the label of case i is placed at 8 + 3i and the default label at 8 + 3N, each for the first time there |
| `ReflectorProperties.DispatchCaseAt` | groovy/groovy-core/groovy-core/src/main/org/codehaus/groovy/classgen/ReflectorGenerator.java:94-103 | case i is its label, then `INVOKESPECIAL` of this class's `m<i>` with the uniform signature, then `ARETURN` |
| `ReflectorProperties.DispatchDefaultAt` | groovy/groovy-core/groovy-core/src/main/org/codehaus/groovy/classgen/ReflectorGenerator.java:105-115 | after all cases come the default label, `INVOKEVIRTUAL noSuchMethod` with the uniform signature, `ARETURN`, and the end of `invoke` |
| `ReflectorProperties.DispatchRoutes` | groovy/groovy-core/groovy-core/src/main/org/codehaus/groovy/classgen/ReflectorGenerator.java:77-112 | for every operand the switch jumps to a label that is placed in `invoke`, followed by the call of `m<key-1>` when 1 <= key <= N and of `noSuchMethod` otherwise, then by `ARETURN` |
| `ReflectorProperties.CaseRoutes` | groovy/groovy-core/groovy-core/src/main/org/codehaus/groovy/classgen/ReflectorGenerator.java:92-102 | for i < N the switch on key i + 1 reaches a placed label followed by the call of `m<i>` and `ARETURN` |
| `ReflectorProperties.NoSuchMethodOnce` | groovy/groovy-core/groovy-core/src/main/org/codehaus/groovy/classgen/ReflectorGenerator.java:105-112 | the `noSuchMethod` call occurs in `invoke` exactly once, at position 9 + 3N in the default case |
| `ReflectorProperties.LoadParametersAt` | groovy/groovy-core/groovy-core/src/main/org/codehaus/groovy/classgen/ReflectorGenerator.java:165-182 | the unpacking is 4 instructions per parameter: parameter i at 4i is `ALOAD` of the array, push i, `AALOAD`, then its coercion; nothing for no parameters |
| `ReflectorProperties.CoercionKind` | groovy/groovy-core/groovy-core/src/main/org/codehaus/groovy/classgen/ReflectorGenerator.java:176-181 | a primitive parameter is unboxed and any other is cast to its type |
| `ReflectorProperties.LoadParametersCounts` | groovy/groovy-core/groovy-core/src/main/org/codehaus/groovy/classgen/ReflectorGenerator.java:168-182 | the unpacking contains only array loads, constant pushes, element loads and coercions, with one `AALOAD` and one load of the array per parameter |
| `ReflectorProperties.ThunkShape` | groovy/groovy-core/groovy-core/src/main/org/codehaus/groovy/classgen/ReflectorGenerator.java:138-163 | the call class is the interface class when present, else the call class; static calls use `INVOKESTATIC` with no receiver; instance calls load local 2, cast it, then use `INVOKEINTERFACE` with an interface class and `INVOKEVIRTUAL` without; the parameters come before the call and the boxing of the return type after it |
| `ReflectorProperties.ThunkEnd` | groovy/groovy-core/groovy-core/src/main/org/codehaus/groovy/classgen/ReflectorGenerator.java:162 | a thunk ends with the boxing of the return type |
| `ReflectorProperties.ThunkInstrs` | groovy/groovy-core/groovy-core/src/main/org/codehaus/groovy/classgen/ReflectorGenerator.java:138-183 | a thunk never declares a method and never pushes `null` |
| `ReflectorProperties.ReceiverLoadedOnlyForInstanceCalls` | groovy/groovy-core/groovy-core/src/main/org/codehaus/groovy/classgen/ReflectorGenerator.java:152-160 | the receiver (local 2) is loaded once for an instance call and never for a static one |
| `ReflectorProperties.ArgumentsIndexedPerParameter` | groovy/groovy-core/groovy-core/src/main/org/codehaus/groovy/classgen/ReflectorGenerator.java:153-172 | a thunk indexes the argument array exactly once per declared parameter |
| `ReflectorProperties.HelperShape` | groovy/groovy-core/groovy-core/src/main/org/codehaus/groovy/classgen/ReflectorGenerator.java:118-134 | helper `m<i>` starts with its private uniform-signature declaration, then the thunk, and ends with `ARETURN` and the end of the method |
| `ReflectorProperties.HelperReturnsNull` | groovy/groovy-core/groovy-core/src/main/org/codehaus/groovy/classgen/ReflectorGenerator.java:129-132 | the instruction just before the final `ARETURN` is `ACONST_NULL` exactly when the return type is `void` |
| `ReflectorProperties.HelperNullCount` | groovy/groovy-core/groovy-core/src/main/org/codehaus/groovy/classgen/ReflectorGenerator.java:127-132 | `ACONST_NULL` occurs once in a helper for a `void` call and nowhere in any other helper |
| `ReflectorProperties.HelperBody` | groovy/groovy-core/groovy-core/src/main/org/codehaus/groovy/classgen/ReflectorGenerator.java:118-134 | a helper is at least 4 instructions: the declaration of `m<i>` first, the end of the method last, no method boundary between, and the call of its descriptor in between |
| `ReflectorProperties.HelpersCodeAt` | groovy/groovy-core/groovy-core/src/main/org/codehaus/groovy/classgen/ReflectorGenerator.java:117-135 | the helpers are those for the descriptors before position i, then the helper for descriptor i, then those after it |
| `ReflectorProperties.HelperInClass` | groovy/groovy-core/groovy-core/src/main/org/codehaus/groovy/classgen/ReflectorGenerator.java:43-135 | in the whole class, helper i starts at its own position with the declaration of `m<i>` and ends, later and inside the class, with the end of the method; no method boundary lies between, and the call of descriptor i does |
| `ReflectorProperties.ConstructorDeclares` | groovy/groovy-core/groovy-core/src/main/org/codehaus/groovy/classgen/ReflectorGenerator.java:49-53 | the constructor code declares exactly one method, the public `<init> ()V` |
| `ReflectorProperties.DispatchDeclares` | groovy/groovy-core/groovy-core/src/main/org/codehaus/groovy/classgen/ReflectorGenerator.java:63-115 | `invoke` declares exactly one method, itself, public with the uniform signature |
| `ReflectorProperties.HelperDeclares` | groovy/groovy-core/groovy-core/src/main/org/codehaus/groovy/classgen/ReflectorGenerator.java:119-134 | a helper declares exactly one method, its own private `m<i>` |
| `ReflectorProperties.HelpersDeclare` | groovy/groovy-core/groovy-core/src/main/org/codehaus/groovy/classgen/ReflectorGenerator.java:118-135 | the helpers declare m0 .. m(N-1), in that order |
| `ReflectorProperties.ClassDeclarations` | groovy/groovy-core/groovy-core/src/main/org/codehaus/groovy/classgen/ReflectorGenerator.java:43-136 | the class declares, in order, the constructor, `invoke`, and exactly N private helpers m0 .. m(N-1) |
| `ReflectorProperties.HelperDeclarationsAt` | groovy/groovy-core/groovy-core/src/main/org/codehaus/groovy/classgen/ReflectorGenerator.java:118-124 | the helper declarations are N entries, entry i declaring `m<i>` |
| `ReflectorProperties.HelperDeclaredOnce` | groovy/groovy-core/groovy-core/src/main/org/codehaus/groovy/classgen/ReflectorGenerator.java:118-124 | `m<k>` is declared once when k < N and not at all otherwise |
| `ReflectorProperties.CalledHelpersDeclared` | groovy/groovy-core/groovy-core/src/main/org/codehaus/groovy/classgen/ReflectorGenerator.java:94-124 | every helper that a case of `invoke` calls is declared in the class exactly once, private and with the signature of the call |
| `ReflectorProperties.ClassLayout` | groovy/groovy-core/groovy-core/src/main/org/codehaus/groovy/classgen/ReflectorGenerator.java:43-58 | the class is the header naming `Reflector` as superclass, the constructor calling `Reflector.<init>`, `invoke` and the helpers, and `visitEnd` |
| `ReflectorProperties.HelperNameInjective` | groovy/groovy-core/groovy-core/src/main/org/codehaus/groovy/classgen/ReflectorGenerator.java:100 | the names `"m" + i` and `"m" + j` are equal exactly when i == j |
| `ReflectorProperties.HelperNamesFresh` | groovy/groovy-core/groovy-core/src/main/org/codehaus/groovy/classgen/ReflectorGenerator.java:121 | no helper name is spelled `<init>` or `invoke` |
| `Decimal.DecimalRoundTrip` | groovy/groovy-core/groovy-core/src/main/org/codehaus/groovy/classgen/ReflectorGenerator.java:100 | the decimal rendering that `"m" + i` uses parses back to i |
| `Decimal.DecimalStringInjective` | groovy/groovy-core/groovy-core/src/main/org/codehaus/groovy/classgen/ReflectorGenerator.java:121 | two indices render to the same decimal string exactly when they are equal |

## Left out

- `visitMaxs` (lines 53, 114, 133) emits no instruction in the model. The stack and local sizes it declares are an ASM encoding detail.
- ASM's encoding of the class file is not modelled: class version, access-flag values, signatures, exceptions. Only which visitor call was made, with which arguments, is recorded.
- Label identity is not modelled. The fresh `Label` objects become `CaseLabel(i)` and `DefaultLabel`, which are pairwise distinct as fresh objects are.
- `BytecodeHelper` internals are not modelled. `getClassInternalName` and `getMethodDescriptor` give opaque values (`InternalNameOf`, `MethodDescriptorOf`). `doCast`, `unbox`, `box` and `pushConstant` are single opaque instructions. In particular, nothing is assumed about what `box(void)` emits.
- The literal internal names and descriptors, such as `org/codehaus/groovy/runtime/Reflector` and the uniform `(MetaMethod, Object, Object[])Object` signature, are constructors. Their texts are written beside each constructor in `Bytecode`, and `MethodNameText` gives the text of every method name. A descriptor name `Named(text)` and a helper name `HelperName(i)` are distinct values even if the texts coincide.
- Classes are values of name and primitiveness. `void.class` is `ClassRef(VoidName, true)`, and the identity test `== void.class` on line 129 becomes value equality. Since `void` is a reserved word, no other class is taken to be named `void`, so `Name("void")` is not expected as a class name.
- The `helper` field (line 36, reassigned at line 125) is not a field of the model. Its emissions go to the stream of the method visitor it wraps, which is the same stream.
- The split into `EmitConstructor`, `EmitDispatch`, `EmitCases`, `NumberMethods`, `EmitHelpers` and `EmitHelper` cuts `generate` and `generateInvokeMethod` into consecutive steps, and `NumberMethod` is the body of the numbering loop. The steps are in the source's order, and the emitted code is unchanged.
- Runtime behaviour of the emitted class is not modelled: what calling `invoke` does on a JVM, class loading, reflection. The routing lemmas stop at which call the switch reaches.
- The `noSuchMethod` fallback and the `Reflector` base class are external and not modelled.
- How the `methods` list is chosen upstream is not modelled. Any list is accepted, including one with repeated descriptors and the empty list.
- Java's 32-bit `int` is not modelled. Indices `i + 1` and switch keys are unbounded integers. A list of 2^31 or more descriptors cannot occur in a JVM anyway.
- `MetaMethod` and the `ClassVisitor` / `MethodVisitor` types are not part of this model's source files. Only the accessors the generator calls are modelled: `getName`, `getCallClass`, `getInterfaceClass`, `getReturnType`, `getParameterTypes`, `isStatic`, `setMethodIndex`, `getMethodIndex`.
- Caller contract violations are not modelled; the Java code would throw on them. They are: an element of the raw `List` that is not a `MetaMethod` (the casts at lines 86 and 127); a `null` element (the calls at lines 87 and 128); and a `null` `getCallClass()` when there is no interface class (line 148). The model also takes the list as a value at construction. The Java object keeps a reference to the caller's list and reads `size()` and the elements only inside `generateInvokeMethod`, so the model does not capture a list changed between construction and `generate`.
