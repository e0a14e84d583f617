/**
 * An abstract view of the class-file emission interface (the ASM visitors and
 * BytecodeHelper) that the reflector generator drives. Every emission becomes
 * one `Instr` value; what the helpers physically encode is not modelled, only
 * which helper was asked for what.
 */
module Bytecode {

  /**
   * A class name as `Class.getName` spells it. The name "void" has its own
   * constructor; since `void` is a reserved word, no other class is named so.
   */
  datatype ClassName = VoidName | Name(text: string)

  /** A `java.lang.Class` as the generator sees it: its name and whether it is primitive. */
  datatype ClassRef = ClassRef(name: ClassName, primitive: bool)

  /** `void.class`: named "void", and primitive as far as `Class.isPrimitive` goes. */
  const VoidClass: ClassRef := ClassRef(VoidName, true)

  /**
   * An internal class name: one of the two the generator writes literally, or
   * the (opaque) result of `BytecodeHelper.getClassInternalName` on a class name.
   */
  datatype InternalName =
    | ReflectorType      // "org/codehaus/groovy/runtime/Reflector"
    | MetaMethodType     // "groovy/lang/MetaMethod"
    | InternalNameOf(className: ClassName)

  /**
   * A method descriptor: one of the three the generator writes literally, or
   * the (opaque) result of `BytecodeHelper.getMethodDescriptor` on a return
   * type and parameter types.
   */
  datatype Descriptor =
    | NoArgsVoid         // "()V"
    | NoArgsInt          // "()I"
    | Uniform            // "(Lgroovy/lang/MetaMethod;Ljava/lang/Object;[Ljava/lang/Object;)Ljava/lang/Object;"
    | MethodDescriptorOf(returnType: ClassRef, parameterTypes: seq<ClassRef>)

  /**
   * A method name: one of the four the generator writes literally, the name
   * of the helper for descriptor `index` (its text is "m" followed by the
   * index in decimal), or the name a descriptor carries.
   */
  datatype MethodName =
    | InitName            // "<init>"
    | InvokeName          // "invoke"
    | GetMethodIndexName  // "getMethodIndex"
    | NoSuchMethodName    // "noSuchMethod"
    | HelperName(index: nat)
    | Named(text: string)

  /** The access flag of an emitted method. */
  datatype Access = Public | Private

  datatype InvokeOp = InvokeSpecial | InvokeVirtual | InvokeStatic | InvokeInterface

  /** Branch targets: the label of case `index` of the switch, or its default label. */
  datatype Label = CaseLabel(index: nat) | DefaultLabel

  datatype Instr =
    | ClassHeader(className: InternalName, superName: InternalName)   // cv.visit (public, super)
    | BeginMethod(access: Access, methodName: MethodName, desc: Descriptor) // cv.visitMethod
    | ALoad(local: nat)
    | AALoad
    | AConstNull
    | Return
    | AReturn
    | MethodCall(op: InvokeOp, owner: InternalName, callee: MethodName, signature: Descriptor)
    | LookupSwitch(dflt: Label, keys: seq<int>, targets: seq<Label>)
    | Mark(placed: Label)                                               // mv.visitLabel
    | PushConst(value: int)                                             // helper.pushConstant
    | Cast(castType: ClassRef)                                          // helper.doCast
    | Unbox(unboxType: ClassRef)                                        // helper.unbox
    | Box(boxType: ClassRef)                                            // helper.box
    | EndMethod                                                         // mv.visitEnd
    | EndClass                                                          // cv.visitEnd

  /**
   * The class visitor the generator writes into. The method visitors it hands
   * out append to the same stream, so one sequence records the whole class in
   * emission order.
   */
  class ClassVisitor {
    var code: seq<Instr>

    constructor ()
      ensures code == []
    {
      code := [];
    }

    method Emit(i: Instr)
      modifies this
      ensures code == old(code) + [i]
    {
      code := code + [i];
    }
  }
}
