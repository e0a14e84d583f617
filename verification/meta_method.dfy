/**
 * The method descriptor (`groovy.lang.MetaMethod`) as far as the reflector
 * generator uses it: read-only facts about the target method, and the method
 * index that the generator writes in place.
 */
module Meta {
  import opened Wrappers
  import opened Bytecode

  class MetaMethod {
    const name: string
    /** The class the call is made on when there is no interface class. */
    const callClass: ClassRef
    /** `getInterfaceClass()`; `None` stands for `null`. */
    const interfaceClass: Option<ClassRef>
    const returnType: ClassRef
    const parameterTypes: seq<ClassRef>
    const isStatic: bool
    var methodIndex: int

    constructor (name: string, callClass: ClassRef, interfaceClass: Option<ClassRef>,
                 returnType: ClassRef, parameterTypes: seq<ClassRef>, isStatic: bool, methodIndex: int)
      ensures this.name == name && this.callClass == callClass && this.interfaceClass == interfaceClass
      ensures this.returnType == returnType && this.parameterTypes == parameterTypes
      ensures this.isStatic == isStatic && this.methodIndex == methodIndex
    {
      this.name := name;
      this.callClass := callClass;
      this.interfaceClass := interfaceClass;
      this.returnType := returnType;
      this.parameterTypes := parameterTypes;
      this.isStatic := isStatic;
      this.methodIndex := methodIndex;
    }

    method SetMethodIndex(index: int)
      modifies this
      ensures methodIndex == index
    {
      methodIndex := index;
    }
  }
}
