/**
 * What the reflector generator emits, as functions of its inputs: one function
 * per emitting method of the generator, plus the meaning of the two control
 * constructs the dispatch method relies on (a `lookupswitch` and a label).
 * None of these functions reads a method index, so the emitted class depends
 * only on the class name and the descriptors' fixed facts.
 */
module ReflectorCode {
  import opened Wrappers
  import opened Bytecode
  import opened Decimal
  import opened Meta

  /** Locals of `invoke` and of each helper: 0 this, 1 the MetaMethod, 2 the receiver, 3 the arguments. */
  const ReceiverLocal: nat := 2
  const ArgumentsLocal: nat := 3

  /** The text of a method name. */
  function MethodNameText(n: MethodName): string
  {
    match n
    case InitName => "<init>"
    case InvokeName => "invoke"
    case GetMethodIndexName => "getMethodIndex"
    case NoSuchMethodName => "noSuchMethod"
    case HelperName(i) => "m" + DecimalString(i)
    case Named(text) => text
  }

  // ---- generate -------------------------------------------------------------

  function ConstructorCode(): seq<Instr>
  {
    [BeginMethod(Public, InitName, NoArgsVoid),
     ALoad(0),
     MethodCall(InvokeSpecial, ReflectorType, InitName, NoArgsVoid),
     Return]
  }

  /** Everything `generate` emits for class `className` over the descriptor list `ms`. */
  function ClassCode(className: string, ms: seq<MetaMethod>): seq<Instr>
  {
    var self := InternalNameOf(Name(className));
    [ClassHeader(self, ReflectorType)] + ConstructorCode() + GenerateInvokeCode(self, ms) + [EndClass]
  }

  // ---- generateInvokeMethod -------------------------------------------------

  /** Everything `generateInvokeMethod` emits: the `invoke` method, then one helper per descriptor. */
  function GenerateInvokeCode(self: InternalName, ms: seq<MetaMethod>): seq<Instr>
  {
    DispatchCode(self, |ms|) + HelpersCode(ms)
  }

  /** The start of `invoke`: push the four helper arguments, then the switch operand. */
  function DispatchPrologue(): seq<Instr>
  {
    [BeginMethod(Public, InvokeName, Uniform),
     ALoad(0), ALoad(1), ALoad(2), ALoad(3),
     ALoad(1),
     MethodCall(InvokeVirtual, MetaMethodType, GetMethodIndexName, NoArgsInt)]
  }

  /** The `invoke` method for `n` descriptors. */
  function DispatchCode(self: InternalName, n: nat): seq<Instr>
  {
    DispatchPrologue()
    + [LookupSwitch(DefaultLabel, SwitchKeys(n), CaseLabels(n))]
    + CasesCode(self, n)
    + DefaultCode(self)
    + [EndMethod]
  }

  /** The key table `indices` after its loop has run `n` times. */
  function SwitchKeys(n: nat): seq<int>
  {
    if n == 0 then [] else SwitchKeys(n - 1) + [n]
  }

  /** The label table `labels` after its loop has run `n` times. */
  function CaseLabels(n: nat): seq<Label>
  {
    if n == 0 then [] else CaseLabels(n - 1) + [CaseLabel(n - 1)]
  }

  function CaseCode(self: InternalName, i: nat): seq<Instr>
  {
    [Mark(CaseLabel(i)), MethodCall(InvokeSpecial, self, HelperName(i), Uniform), AReturn]
  }

  /** The first `n` switch cases, in order. */
  function CasesCode(self: InternalName, n: nat): seq<Instr>
  {
    if n == 0 then [] else CasesCode(self, n - 1) + CaseCode(self, n - 1)
  }

  function NoSuchMethodCall(self: InternalName): Instr
  {
    MethodCall(InvokeVirtual, self, NoSuchMethodName, Uniform)
  }

  function DefaultCode(self: InternalName): seq<Instr>
  {
    [Mark(DefaultLabel), NoSuchMethodCall(self), AReturn]
  }

  /** The helper for descriptor `m` at position `i`: declaration, thunk, return. */
  function HelperCode(i: nat, m: MetaMethod): seq<Instr>
  {
    [HelperDeclaration(i)] + ThunkCode(m) + HelperReturn(m)
  }

  /** A `void` call leaves nothing to return, so the helper returns `null` instead. */
  function HelperReturn(m: MetaMethod): seq<Instr>
  {
    if m.returnType == VoidClass then [AConstNull, AReturn, EndMethod] else [AReturn, EndMethod]
  }

  /** The helpers for the descriptors of `ms`, in list order. */
  function HelpersCode(ms: seq<MetaMethod>): seq<Instr>
  {
    if ms == [] then [] else HelpersCode(ms[..|ms| - 1]) + HelperCode(|ms| - 1, ms[|ms| - 1])
  }

  // ---- invokeMethod ---------------------------------------------------------

  /** The class the call is made on. */
  function CallTarget(m: MetaMethod): ClassRef
  {
    match m.interfaceClass
    case Some(c) => c
    case None => m.callClass
  }

  function CallOp(m: MetaMethod): InvokeOp
  {
    if m.isStatic then InvokeStatic
    else if m.interfaceClass.Some? then InvokeInterface
    else InvokeVirtual
  }

  function TargetCall(m: MetaMethod): Instr
  {
    MethodCall(CallOp(m), InternalNameOf(CallTarget(m).name), Named(m.name),
               MethodDescriptorOf(m.returnType, m.parameterTypes))
  }

  /** What `invokeMethod` emits for `m`. */
  function ThunkCode(m: MetaMethod): seq<Instr>
  {
    ReceiverCode(m) + LoadParametersCode(m.parameterTypes, ArgumentsLocal) + [TargetCall(m), Box(m.returnType)]
  }

  /** An instance call first loads the receiver and casts it to the call class. */
  function ReceiverCode(m: MetaMethod): seq<Instr>
  {
    if m.isStatic then [] else [ALoad(ReceiverLocal), Cast(CallTarget(m))]
  }

  // ---- loadParameters -------------------------------------------------------

  function Coercion(t: ClassRef): Instr
  {
    if t.primitive then Unbox(t) else Cast(t)
  }

  function ArgumentCode(argumentIndex: nat, i: nat, t: ClassRef): seq<Instr>
  {
    [ALoad(argumentIndex), PushConst(i), AALoad, Coercion(t)]
  }

  /** What `loadParameters` emits for parameter types `ps`, reading the array in local `argumentIndex`. */
  function LoadParametersCode(ps: seq<ClassRef>, argumentIndex: nat): seq<Instr>
  {
    if ps == [] then []
    else LoadParametersCode(ps[..|ps| - 1], argumentIndex) + ArgumentCode(argumentIndex, |ps| - 1, ps[|ps| - 1])
  }

  // ---- meaning of the control constructs -----------------------------------

  /**
   * The target a `lookupswitch` jumps to for `key` (section 6.5 of the Java
   * Virtual Machine Specification, `lookupswitch`): the target paired with the
   * first key equal to `key`, else the default.
   */
  function SwitchTarget(keys: seq<int>, targets: seq<Label>, dflt: Label, key: int): Label
    requires |keys| == |targets|
  {
    SwitchTargetFrom(keys, targets, dflt, key, 0)
  }

  function SwitchTargetFrom(keys: seq<int>, targets: seq<Label>, dflt: Label, key: int, from: nat): Label
    requires |keys| == |targets| && from <= |keys|
    decreases |keys| - from
  {
    if from == |keys| then dflt
    else if keys[from] == key then targets[from]
    else SwitchTargetFrom(keys, targets, dflt, key, from + 1)
  }

  /** The position at which label `l` is placed in `code`, or -1 when it is not placed. */
  function FindMark(code: seq<Instr>, l: Label): int
  {
    FindMarkFrom(code, l, 0)
  }

  function FindMarkFrom(code: seq<Instr>, l: Label, from: nat): int
    requires from <= |code|
    decreases |code| - from
  {
    if from == |code| then -1
    else if code[from] == Mark(l) then from
    else FindMarkFrom(code, l, from + 1)
  }

  /** The method declarations of `code`, in order. */
  function Declarations(code: seq<Instr>): seq<Instr>
  {
    if code == [] then []
    else Declarations(code[..|code| - 1]) + (if code[|code| - 1].BeginMethod? then [code[|code| - 1]] else [])
  }

  function HelperDeclaration(i: nat): Instr
  {
    BeginMethod(Private, HelperName(i), Uniform)
  }

  /** The declarations of helpers m0 .. m(n-1), in that order. */
  function HelperDeclarations(n: nat): seq<Instr>
  {
    if n == 0 then [] else HelperDeclarations(n - 1) + [HelperDeclaration(n - 1)]
  }

  // ---- descriptor lists -----------------------------------------------------

  predicate Distinct(ms: seq<MetaMethod>)
  {
    forall a, b :: 0 <= a < b < |ms| ==> ms[a] != ms[b]
  }

  /** The last position of `m` in `ms`, or -1. */
  function LastIndexOf(ms: seq<MetaMethod>, m: MetaMethod): int
  {
    if ms == [] then -1
    else if ms[|ms| - 1] == m then |ms| - 1
    else LastIndexOf(ms[..|ms| - 1], m)
  }
}
