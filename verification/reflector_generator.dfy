/**
 * The generator itself: it writes a `Reflector` subclass into a class visitor,
 * step by step, and stamps each descriptor with its dispatch index on the way.
 * Each method is proved to append exactly the code that the matching function
 * of ReflectorCode describes.
 */
module Generator {
  import opened Wrappers
  import opened Bytecode
  import opened Meta
  import opened ReflectorCode
  import opened ReflectorProperties

  class ReflectorGenerator {
    const methods: seq<MetaMethod>
    var cv: ClassVisitor?
    /** `None` until `Generate` sets it (the field starts out `null`). */
    var classInternalName: Option<InternalName>

    constructor (methods: seq<MetaMethod>)
      ensures this.methods == methods && cv == null && classInternalName == None
    {
      this.methods := methods;
      cv := null;
      classInternalName := None;
    }

    /** Every descriptor carries one plus its last position in the list. */
    ghost predicate Numbered()
      reads methods
    {
      forall i :: 0 <= i < |methods| ==> methods[i].methodIndex == LastIndexOf(methods, methods[i]) + 1
    }

    /** Over a list without repeats, descriptor i carries i + 1. */
    lemma NumberedWhenDistinct()
      requires Numbered() && Distinct(methods)
      ensures forall i :: 0 <= i < |methods| ==> methods[i].methodIndex == i + 1
    {
      forall i | 0 <= i < |methods|
        ensures methods[i].methodIndex == i + 1
      {
        LastIndexOfDistinct(methods, i);
      }
    }

    /**
     * The whole path of one call: after numbering a list without repeats, the
     * switch of `invoke` sends descriptor i's own index to the call of m<i>;
     * the class declares m<i> exactly once; and the method so declared makes
     * the call of descriptor i.
     */
    lemma DispatchReachesDescriptor(className: string, i: nat)
      requires Numbered() && Distinct(methods) && i < |methods|
      ensures methods[i].methodIndex == i + 1
      ensures |SwitchKeys(|methods|)| == |CaseLabels(|methods|)|
      ensures var self := InternalNameOf(Name(className));
        var n := |methods|;
        var code := DispatchCode(self, n);
        var p := FindMark(code, SwitchTarget(SwitchKeys(n), CaseLabels(n), DefaultLabel, methods[i].methodIndex));
        && 0 <= p && p + 2 < |code|
        && code[p + 1] == MethodCall(InvokeSpecial, self, HelperName(i), Uniform)
        && code[p + 2] == AReturn
      ensures multiset(Declarations(ClassCode(className, methods)))[HelperDeclaration(i)] == 1
      ensures 0 <= HelperStart(methods, i) < HelperEnd(methods, i) < |ClassCode(className, methods)|
      ensures ClassCode(className, methods)[HelperStart(methods, i)] == HelperDeclaration(i)
      ensures ClassCode(className, methods)[HelperEnd(methods, i)] == EndMethod
      ensures forall k :: HelperStart(methods, i) < k < HelperEnd(methods, i) ==>
                !ClassCode(className, methods)[k].BeginMethod? && ClassCode(className, methods)[k] != EndMethod
      ensures TargetCall(methods[i]) in ClassCode(className, methods)[HelperStart(methods, i) + 1..HelperEnd(methods, i)]
    {
      NumberedWhenDistinct();
      assert methods[i].methodIndex == i + 1;
      CaseRoutes(InternalNameOf(Name(className)), |methods|, i);
      CalledHelpersDeclared(className, methods, i);
      HelperInClass(className, methods, i);
    }

    method Generate(cv: ClassVisitor, className: string)
      modifies this, cv, methods
      ensures this.cv == cv && classInternalName == Some(InternalNameOf(Name(className)))
      ensures cv.code == old(cv.code) + ClassCode(className, methods)
      ensures Numbered()
      ensures Distinct(methods) ==> forall i :: 0 <= i < |methods| ==> methods[i].methodIndex == i + 1
    {
      this.cv := cv;
      classInternalName := Some(InternalNameOf(Name(className)));
      cv.Emit(ClassHeader(classInternalName.value, ReflectorType));

      EmitConstructor(cv);

      GenerateInvokeMethod();

      cv.Emit(EndClass);
      EmittedClass(old(cv.code), className, methods);
      if Distinct(methods) {
        NumberedWhenDistinct();
      }
    }

    /** ReflectorGenerator.java:49-53: the public no-argument constructor, calling the `Reflector` one. */
    method EmitConstructor(cv: ClassVisitor)
      modifies cv
      ensures cv.code == old(cv.code) + ConstructorCode()
    {
      cv.Emit(BeginMethod(Public, InitName, NoArgsVoid));
      cv.Emit(ALoad(0));
      cv.Emit(MethodCall(InvokeSpecial, ReflectorType, InitName, NoArgsVoid));
      cv.Emit(Return);
    }

    /** ReflectorGenerator.java:60-136: the `invoke` method, then one helper per descriptor. */
    method GenerateInvokeMethod()
      requires cv != null && classInternalName.Some?
      modifies cv, methods
      ensures cv.code == old(cv.code) + GenerateInvokeCode(classInternalName.value, methods)
      ensures Numbered()
    {
      var mv := cv;
      EmitDispatch(mv, classInternalName.value);
      EmitHelpers(mv);
      EmittedInvokeMethod(old(mv.code), classInternalName.value, methods);
    }

    /** ReflectorGenerator.java:63-115: the `invoke` method, switching on the descriptor's index. */
    method EmitDispatch(mv: ClassVisitor, self: InternalName)
      modifies mv, methods
      ensures mv.code == old(mv.code) + DispatchCode(self, |methods|)
      ensures Numbered()
    {
      var methodCount := |methods|;

      mv.Emit(BeginMethod(Public, InvokeName, Uniform));
      // the four arguments every helper takes: this, descriptor, receiver, arguments
      mv.Emit(ALoad(0));
      mv.Emit(ALoad(1));
      mv.Emit(ALoad(2));
      mv.Emit(ALoad(3));
      // the switch operand: the descriptor's index
      mv.Emit(ALoad(1));
      mv.Emit(MethodCall(InvokeVirtual, MetaMethodType, GetMethodIndexName, NoArgsInt));
      EmittedPrologue(old(mv.code));

      var labels, indices := NumberMethods();

      mv.Emit(LookupSwitch(DefaultLabel, indices[..], labels[..]));
      EmitCases(mv, self);

      // the default case falls back to noSuchMethod
      mv.Emit(Mark(DefaultLabel));
      mv.Emit(MethodCall(InvokeVirtual, self, NoSuchMethodName, Uniform));
      mv.Emit(AReturn);
      mv.Emit(EndMethod);
      EmittedDispatch(old(mv.code), self, methodCount);
    }

    /** ReflectorGenerator.java:80-89: number the descriptors in place and fill the switch tables. */
    method NumberMethods() returns (labels: array<Label>, indices: array<int>)
      modifies methods
      ensures fresh(labels) && fresh(indices)
      ensures labels[..] == CaseLabels(|methods|) && indices[..] == SwitchKeys(|methods|)
      ensures Numbered()
    {
      var methodCount := |methods|;
      labels := new Label[methodCount];
      indices := new int[methodCount];
      var i := 0;
      while i < methodCount
        invariant 0 <= i <= methodCount
        invariant forall j :: 0 <= j < i ==> labels[j] == CaseLabel(j) && indices[j] == j + 1
        invariant NumberedUpTo(i)
      {
        NumberMethod(i, labels, indices);
        i := i + 1;
      }
      TablesFilled(methodCount, labels[..], indices[..]);
      NumberedWhenAllNumbered();
    }

    lemma NumberedWhenAllNumbered()
      requires NumberedUpTo(|methods|)
      ensures Numbered()
    {
      assert methods[..|methods|] == methods;
    }

    /** The first `n` descriptors carry one plus their last position among the first `n`. */
    ghost predicate NumberedUpTo(n: nat)
      requires n <= |methods|
      reads methods
    {
      forall j :: 0 <= j < n ==> methods[j].methodIndex == LastIndexOf(methods[..n], methods[j]) + 1
    }

    /** ReflectorGenerator.java:85-88: one round of the numbering loop, filling entry i of both tables. */
    method NumberMethod(i: nat, labels: array<Label>, indices: array<int>)
      requires i < |methods| == labels.Length == indices.Length
      requires NumberedUpTo(i)
      requires forall j :: 0 <= j < i ==> labels[j] == CaseLabel(j) && indices[j] == j + 1
      modifies methods[i], labels, indices
      ensures NumberedUpTo(i + 1)
      ensures forall j :: 0 <= j < i + 1 ==> labels[j] == CaseLabel(j) && indices[j] == j + 1
    {
      labels[i] := CaseLabel(i);
      var metaMethod := methods[i];
      label Before:
      metaMethod.SetMethodIndex(i + 1);
      indices[i] := metaMethod.methodIndex;
      forall j | 0 <= j <= i
        ensures methods[j].methodIndex == LastIndexOf(methods[..i + 1], methods[j]) + 1
      {
        LastIndexOfStep(methods, i, methods[j]);
        if methods[j] != metaMethod {
          assert methods[j].methodIndex == old@Before(methods[j].methodIndex);
        }
      }
    }

    /** ReflectorGenerator.java:93-103: one case per descriptor, calling its helper. */
    method EmitCases(mv: ClassVisitor, self: InternalName)
      modifies mv
      ensures mv.code == old(mv.code) + CasesCode(self, |methods|)
    {
      var i := 0;
      while i < |methods|
        invariant 0 <= i <= |methods|
        invariant mv.code == old(mv.code) + CasesCode(self, i)
      {
        mv.Emit(Mark(CaseLabel(i)));
        mv.Emit(MethodCall(InvokeSpecial, self, HelperName(i), Uniform));
        mv.Emit(AReturn);
        i := i + 1;
      }
    }

    /** ReflectorGenerator.java:117-135: the helper m<i> for each descriptor, in list order. */
    method EmitHelpers(mv: ClassVisitor)
      modifies mv
      ensures mv.code == old(mv.code) + HelpersCode(methods)
    {
      var i := 0;
      while i < |methods|
        invariant 0 <= i <= |methods|
        invariant mv.code == old(mv.code) + HelpersCode(methods[..i])
      {
        EmitHelper(mv, i, methods[i]);
        EmittedHelpers(old(mv.code), methods, i);
        i := i + 1;
      }
      assert methods[..|methods|] == methods;
    }

    /** ReflectorGenerator.java:118-134: the private helper m<i> that calls descriptor `metaMethod`. */
    method EmitHelper(mv: ClassVisitor, i: nat, metaMethod: MetaMethod)
      modifies mv
      ensures mv.code == old(mv.code) + HelperCode(i, metaMethod)
    {
      mv.Emit(BeginMethod(Private, HelperName(i), Uniform));
      InvokeMethod(metaMethod, mv);
      if metaMethod.returnType == VoidClass {
        mv.Emit(AConstNull);
      }
      mv.Emit(AReturn);
      mv.Emit(EndMethod);
      EmittedHelper(old(mv.code), i, metaMethod);
    }

    method InvokeMethod(metaMethod: MetaMethod, mv: ClassVisitor)
      modifies mv
      ensures mv.code == old(mv.code) + ThunkCode(metaMethod)
    {
      // an interface class, when present, is the owner of the call
      var callClass := metaMethod.callClass;
      var useInterface := false;
      if metaMethod.interfaceClass.Some? {
        callClass := metaMethod.interfaceClass.value;
        useInterface := true;
      }
      var owner := InternalNameOf(callClass.name);
      var descriptor := MethodDescriptorOf(metaMethod.returnType, metaMethod.parameterTypes);

      if metaMethod.isStatic {
        LoadParameters(metaMethod, 3, mv);
        mv.Emit(MethodCall(InvokeStatic, owner, Named(metaMethod.name), descriptor));
      } else {
        mv.Emit(ALoad(2));
        mv.Emit(Cast(callClass));
        LoadParameters(metaMethod, 3, mv);
        mv.Emit(MethodCall(if useInterface then InvokeInterface else InvokeVirtual, owner, Named(metaMethod.name), descriptor));
      }

      mv.Emit(Box(metaMethod.returnType));
      EmittedThunk(old(mv.code), metaMethod);
    }

    method LoadParameters(metaMethod: MetaMethod, argumentIndex: nat, mv: ClassVisitor)
      modifies mv
      ensures mv.code == old(mv.code) + LoadParametersCode(metaMethod.parameterTypes, argumentIndex)
    {
      var parameters := metaMethod.parameterTypes;
      var size := |parameters|;
      var i := 0;
      while i < size
        invariant 0 <= i <= size
        invariant mv.code == old(mv.code) + LoadParametersCode(parameters[..i], argumentIndex)
      {
        // element i of the argument array
        mv.Emit(ALoad(argumentIndex));
        mv.Emit(PushConst(i));
        mv.Emit(AALoad);

        // a primitive parameter is unboxed, any other is cast
        var t := parameters[i];
        if t.primitive {
          mv.Emit(Unbox(t));
        } else {
          mv.Emit(Cast(t));
        }
        EmittedArgument(old(mv.code), parameters, i, argumentIndex);
        i := i + 1;
      }
      assert parameters[..size] == parameters;
    }
  }

  // ---- the steps above, regrouped as the functions of ReflectorCode group them ----

  lemma EmittedClass(c0: seq<Instr>, className: string, ms: seq<MetaMethod>)
    ensures c0 + [ClassHeader(InternalNameOf(Name(className)), ReflectorType)]
              + ConstructorCode()
              + GenerateInvokeCode(InternalNameOf(Name(className)), ms) + [EndClass]
            == c0 + ClassCode(className, ms)
  {
  }

  lemma EmittedPrologue(c0: seq<Instr>)
    ensures c0 + [BeginMethod(Public, InvokeName, Uniform)]
              + [ALoad(0)] + [ALoad(1)] + [ALoad(2)] + [ALoad(3)] + [ALoad(1)]
              + [MethodCall(InvokeVirtual, MetaMethodType, GetMethodIndexName, NoArgsInt)]
            == c0 + DispatchPrologue()
  {
  }

  lemma EmittedDispatch(c0: seq<Instr>, self: InternalName, n: nat)
    ensures c0 + DispatchPrologue()
              + [LookupSwitch(DefaultLabel, SwitchKeys(n), CaseLabels(n))]
              + CasesCode(self, n)
              + [Mark(DefaultLabel)] + [NoSuchMethodCall(self)] + [AReturn] + [EndMethod]
            == c0 + DispatchCode(self, n)
  {
  }

  lemma EmittedInvokeMethod(c0: seq<Instr>, self: InternalName, ms: seq<MetaMethod>)
    ensures c0 + DispatchCode(self, |ms|) + HelpersCode(ms) == c0 + GenerateInvokeCode(self, ms)
  {
  }

  lemma EmittedHelper(c0: seq<Instr>, i: nat, m: MetaMethod)
    ensures m.returnType == VoidClass ==>
      c0 + [HelperDeclaration(i)] + ThunkCode(m) + [AConstNull] + [AReturn] + [EndMethod] == c0 + HelperCode(i, m)
    ensures m.returnType != VoidClass ==>
      c0 + [HelperDeclaration(i)] + ThunkCode(m) + [AReturn] + [EndMethod] == c0 + HelperCode(i, m)
  {
    var t := ThunkCode(m);
    if m.returnType == VoidClass {
      EmittedParts3(c0, HelperDeclaration(i), t, AConstNull, AReturn, EndMethod);
    } else {
      EmittedParts2(c0, HelperDeclaration(i), t, AReturn, EndMethod);
    }
  }

  lemma EmittedParts3(c0: seq<Instr>, d: Instr, t: seq<Instr>, a: Instr, b: Instr, c: Instr)
    ensures c0 + [d] + t + [a] + [b] + [c] == c0 + ([d] + t + [a, b, c])
  {
  }

  lemma EmittedParts2(c0: seq<Instr>, d: Instr, t: seq<Instr>, a: Instr, b: Instr)
    ensures c0 + [d] + t + [a] + [b] == c0 + ([d] + t + [a, b])
  {
  }

  lemma EmittedHelpers(c0: seq<Instr>, ms: seq<MetaMethod>, i: nat)
    requires i < |ms|
    ensures c0 + HelpersCode(ms[..i]) + HelperCode(i, ms[i]) == c0 + HelpersCode(ms[..i + 1])
  {
    assert ms[..i + 1][..i] == ms[..i];
  }

  lemma EmittedThunk(c0: seq<Instr>, m: MetaMethod)
    ensures m.isStatic ==>
      c0 + LoadParametersCode(m.parameterTypes, ArgumentsLocal) + [TargetCall(m)] + [Box(m.returnType)]
        == c0 + ThunkCode(m)
    ensures !m.isStatic ==>
      c0 + [ALoad(ReceiverLocal)] + [Cast(CallTarget(m))] + LoadParametersCode(m.parameterTypes, ArgumentsLocal)
        + [TargetCall(m)] + [Box(m.returnType)]
        == c0 + ThunkCode(m)
  {
  }

  lemma EmittedArgument(c0: seq<Instr>, ps: seq<ClassRef>, i: nat, argumentIndex: nat)
    requires i < |ps|
    ensures c0 + LoadParametersCode(ps[..i], argumentIndex)
              + [ALoad(argumentIndex)] + [PushConst(i)] + [AALoad] + [Coercion(ps[i])]
            == c0 + LoadParametersCode(ps[..i + 1], argumentIndex)
  {
    assert ps[..i + 1][..i] == ps[..i];
  }
}
