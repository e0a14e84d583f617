/**
 * What the emitted class promises, proved about the functions of
 * ReflectorCode: the switch table, the routing of every key, the shape of each
 * helper, the argument unpacking, and the list of declared methods.
 */
module ReflectorProperties {
  import opened Bytecode
  import opened Decimal
  import opened Meta
  import opened ReflectorCode

  // ---- helper names ---------------------------------------------------------

  /** The helpers m0, m1, ... have pairwise distinct names. */
  lemma HelperNameInjective(i: nat, j: nat)
    ensures MethodNameText(HelperName(i)) == MethodNameText(HelperName(j)) <==> i == j
  {
    if MethodNameText(HelperName(i)) == MethodNameText(HelperName(j)) {
      assert MethodNameText(HelperName(i))[1..] == DecimalString(i);
      assert MethodNameText(HelperName(j))[1..] == DecimalString(j);
      DecimalStringInjective(i, j);
    }
  }

  /** No helper name is spelled like the constructor or `invoke`. */
  lemma HelperNamesFresh(i: nat)
    ensures MethodNameText(HelperName(i)) != MethodNameText(InitName)
    ensures MethodNameText(HelperName(i)) != MethodNameText(InvokeName)
  {
    assert MethodNameText(HelperName(i))[0] == 'm';
  }

  // ---- the meaning of lookupswitch, of a label, and of the numbering ----------

  lemma {:induction false} SwitchTargetFromSpec(keys: seq<int>, targets: seq<Label>, dflt: Label, key: int, from: nat)
    requires |keys| == |targets| && from <= |keys|
    ensures (forall j :: from <= j < |keys| ==> keys[j] != key) ==> SwitchTargetFrom(keys, targets, dflt, key, from) == dflt
    ensures forall j :: from <= j < |keys| && keys[j] == key && (forall k :: from <= k < j ==> keys[k] != key) ==>
              SwitchTargetFrom(keys, targets, dflt, key, from) == targets[j]
    decreases |keys| - from
  {
    if from < |keys| && keys[from] != key {
      SwitchTargetFromSpec(keys, targets, dflt, key, from + 1);
    }
  }

  /**
   * A `lookupswitch` jumps to the default when no key matches, and otherwise
   * to the target paired with the first matching key.
   */
  lemma SwitchTargetSpec(keys: seq<int>, targets: seq<Label>, dflt: Label, key: int)
    requires |keys| == |targets|
    ensures (forall j :: 0 <= j < |keys| ==> keys[j] != key) ==> SwitchTarget(keys, targets, dflt, key) == dflt
    ensures forall j :: 0 <= j < |keys| && keys[j] == key && (forall k :: 0 <= k < j ==> keys[k] != key) ==>
              SwitchTarget(keys, targets, dflt, key) == targets[j]
  {
    SwitchTargetFromSpec(keys, targets, dflt, key, 0);
  }

  lemma {:induction false} FindMarkFromSpec(code: seq<Instr>, l: Label, from: nat)
    requires from <= |code|
    ensures var r := FindMarkFrom(code, l, from);
      && (r == -1 || from <= r < |code|)
      && (r == -1 <==> forall k :: from <= k < |code| ==> code[k] != Mark(l))
      && (r >= 0 ==> code[r] == Mark(l) && forall k :: from <= k < r ==> code[k] != Mark(l))
    decreases |code| - from
  {
    if from < |code| && code[from] != Mark(l) {
      FindMarkFromSpec(code, l, from + 1);
    }
  }

  /** A label's position is its first placement in the code, or -1 when it is never placed. */
  lemma FindMarkSpec(code: seq<Instr>, l: Label)
    ensures var r := FindMark(code, l);
      && -1 <= r < |code|
      && (r == -1 <==> Mark(l) !in code)
      && (r >= 0 ==> code[r] == Mark(l) && forall k :: 0 <= k < r ==> code[k] != Mark(l))
  {
    FindMarkFromSpec(code, l, 0);
  }

  /** The last position of `m` in `ms`, or -1 when `m` does not occur. */
  lemma {:induction false} LastIndexOfSpec(ms: seq<MetaMethod>, m: MetaMethod)
    ensures var r := LastIndexOf(ms, m);
      && -1 <= r < |ms|
      && (r == -1 <==> m !in ms)
      && (r >= 0 ==> ms[r] == m && forall k :: r < k < |ms| ==> ms[k] != m)
  {
    if ms != [] && ms[|ms| - 1] != m {
      LastIndexOfSpec(ms[..|ms| - 1], m);
    }
  }

  /** In a list without repeats, every element's last position is its position. */
  lemma LastIndexOfDistinct(ms: seq<MetaMethod>, i: nat)
    requires Distinct(ms) && i < |ms|
    ensures LastIndexOf(ms, ms[i]) == i
  {
    LastIndexOfSpec(ms, ms[i]);
  }

  /** Extending a prefix by one element moves the last position only for that element. */
  lemma LastIndexOfStep(ms: seq<MetaMethod>, i: nat, m: MetaMethod)
    requires i < |ms|
    ensures LastIndexOf(ms[..i + 1], m) == if ms[i] == m then i else LastIndexOf(ms[..i], m)
  {
    assert ms[..i + 1][..i] == ms[..i];
  }

  // ---- the switch tables ----------------------------------------------------

  /** The key table is 1, 2, ..., n. */
  lemma {:induction false} SwitchKeysAt(n: nat)
    ensures |SwitchKeys(n)| == n
    ensures forall i :: 0 <= i < n ==> SwitchKeys(n)[i] == i + 1
  {
    if n > 0 {
      SwitchKeysAt(n - 1);
    }
  }

  /** The key table is strictly increasing, as `lookupswitch` demands of its keys. */
  lemma SwitchKeysIncreasing(n: nat)
    ensures forall i, j :: 0 <= i < j < |SwitchKeys(n)| ==> SwitchKeys(n)[i] < SwitchKeys(n)[j]
  {
    SwitchKeysAt(n);
  }

  /** The label table pairs key i + 1 with the label of case i. */
  lemma {:induction false} CaseLabelsAt(n: nat)
    ensures |CaseLabels(n)| == n
    ensures forall i :: 0 <= i < n ==> CaseLabels(n)[i] == CaseLabel(i)
  {
    if n > 0 {
      CaseLabelsAt(n - 1);
    }
  }

  /** Tables filled entry by entry, as the numbering loop fills them, are the label and key tables. */
  lemma TablesFilled(n: nat, ls: seq<Label>, ks: seq<int>)
    requires |ls| == |ks| == n
    requires forall j :: 0 <= j < n ==> ls[j] == CaseLabel(j) && ks[j] == j + 1
    ensures ls == CaseLabels(n) && ks == SwitchKeys(n)
  {
    CaseLabelsAt(n);
    SwitchKeysAt(n);
  }

  /** Key k selects case k - 1 when 1 <= k <= n, and the default label otherwise. */
  lemma SwitchSelects(n: nat, key: int)
    ensures |SwitchKeys(n)| == |CaseLabels(n)|
    ensures SwitchTarget(SwitchKeys(n), CaseLabels(n), DefaultLabel, key)
            == if 1 <= key <= n then CaseLabel(key - 1) else DefaultLabel
  {
    SwitchKeysAt(n);
    CaseLabelsAt(n);
    SwitchTargetSpec(SwitchKeys(n), CaseLabels(n), DefaultLabel, key);
    var keys := SwitchKeys(n);
    if 1 <= key <= n {
      assert keys[key - 1] == key;
      assert forall k :: 0 <= k < key - 1 ==> keys[k] != key;
    } else {
      assert forall j :: 0 <= j < n ==> keys[j] != key;
    }
  }

  // ---- the invoke method ----------------------------------------------------

  /** Where a label is first placed in a concatenation. */
  lemma FindMarkAppend(a: seq<Instr>, b: seq<Instr>, l: Label)
    ensures FindMark(a + b, l) == if Mark(l) in a then FindMark(a, l)
                                  else if Mark(l) in b then |a| + FindMark(b, l) else -1
  {
    FindMarkSpec(a + b, l);
    FindMarkSpec(a, l);
    FindMarkSpec(b, l);
    if Mark(l) in a {
      var ra := FindMark(a, l);
      assert (a + b)[ra] == Mark(l);
      assert forall k :: 0 <= k < ra ==> (a + b)[k] == a[k];
    } else if Mark(l) in b {
      var rb := FindMark(b, l);
      assert (a + b)[|a| + rb] == Mark(l);
      assert forall k :: 0 <= k < |a| ==> (a + b)[k] == a[k];
      assert forall k :: |a| <= k < |a| + rb ==> (a + b)[k] == b[k - |a|];
    } else {
      assert Mark(l) !in a + b;
    }
  }

  lemma {:induction false} CasesCodeAt(self: InternalName, n: nat)
    ensures |CasesCode(self, n)| == 3 * n
    ensures forall i :: 0 <= i < n ==> CasesCode(self, n)[3 * i..3 * i + 3] == CaseCode(self, i)
  {
    if n > 0 {
      CasesCodeAt(self, n - 1);
      var prev := CasesCode(self, n - 1);
      var last := CaseCode(self, n - 1);
      var code := CasesCode(self, n);
      assert code == prev + last;
      forall i | 0 <= i < n
        ensures code[3 * i..3 * i + 3] == CaseCode(self, i)
      {
        if i < n - 1 {
          assert code[3 * i..3 * i + 3] == prev[3 * i..3 * i + 3];
        } else {
          assert 3 * i == |prev|;
          assert code[|prev|..|prev| + 3] == last;
        }
      }
    }
  }

  lemma {:induction false} LaterCasesNotPlaced(self: InternalName, n: nat, l: Label)
    requires l.CaseLabel? ==> n <= l.index
    ensures Mark(l) !in CasesCode(self, n)
  {
    if n > 0 {
      LaterCasesNotPlaced(self, n - 1, l);
      assert Mark(l) !in CaseCode(self, n - 1);
    }
  }

  /** Case i places its label at position 3i of the cases. */
  lemma {:induction false} CaseMarkAt(self: InternalName, n: nat, i: nat)
    requires i < n
    ensures FindMark(CasesCode(self, n), CaseLabel(i)) == 3 * i
  {
    var prev := CasesCode(self, n - 1);
    var last := CaseCode(self, n - 1);
    FindMarkAppend(prev, last, CaseLabel(i));
    if i < n - 1 {
      CaseMarkAt(self, n - 1, i);
      FindMarkSpec(prev, CaseLabel(i));
    } else {
      LaterCasesNotPlaced(self, n - 1, CaseLabel(i));
      CasesCodeAt(self, n - 1);
      assert last[0] == Mark(CaseLabel(i));
    }
  }

  /**
   * The layout of `invoke`: the prologue, the switch at position 7, case i at
   * 8 + 3i (label, call of m<i>, return), then the default case and the end.
   */
  lemma DispatchLayout(self: InternalName, n: nat)
    ensures var code := DispatchCode(self, n);
      && |code| == 12 + 3 * n
      && code[..7] == DispatchPrologue()
      && code[7] == LookupSwitch(DefaultLabel, SwitchKeys(n), CaseLabels(n))
      && (forall i :: 0 <= i < n ==> code[8 + 3 * i..11 + 3 * i] == CaseCode(self, i))
      && code[8 + 3 * n..] == DefaultCode(self) + [EndMethod]
  {
    CasesCodeAt(self, n);
    var prologue := DispatchPrologue();
    var head := prologue + [LookupSwitch(DefaultLabel, SwitchKeys(n), CaseLabels(n))];
    var cases := CasesCode(self, n);
    var tail := DefaultCode(self) + [EndMethod];
    var code := DispatchCode(self, n);
    ConcatAssoc(head + cases, DefaultCode(self), [EndMethod]);
    assert code == head + cases + tail;
    ThreeParts(head, cases, tail);
    assert code[..7] == head[..7] == prologue;
    forall i | 0 <= i < n
      ensures code[8 + 3 * i..11 + 3 * i] == CaseCode(self, i)
    {
      MiddleSlice(head, cases, tail, 3 * i, 3 * i + 3);
    }
  }

  /** The outer parts of a three-part concatenation. */
  lemma ThreeParts<T>(h: seq<T>, c: seq<T>, t: seq<T>)
    ensures |h + c + t| == |h| + |c| + |t|
    ensures (h + c + t)[..|h|] == h && (h + c + t)[|h| + |c|..] == t
    ensures forall k :: 0 <= k < |h| ==> (h + c + t)[k] == h[k]
  {
  }

  /** A slice of the middle part of a three-part concatenation. */
  lemma MiddleSlice<T>(h: seq<T>, c: seq<T>, t: seq<T>, a: nat, b: nat)
    requires a <= b <= |c|
    ensures (h + c + t)[|h| + a..|h| + b] == c[a..b]
  {
  }

  /** In `invoke`, case i places its label at 8 + 3i and the default label comes after all cases. */
  lemma DispatchMarks(self: InternalName, n: nat, l: Label)
    requires l.CaseLabel? ==> l.index < n
    ensures FindMark(DispatchCode(self, n), l) == if l.CaseLabel? then 8 + 3 * l.index else 8 + 3 * n
  {
    var head := DispatchPrologue() + [LookupSwitch(DefaultLabel, SwitchKeys(n), CaseLabels(n))];
    var cases := CasesCode(self, n);
    var tail := DefaultCode(self) + [EndMethod];
    assert DispatchCode(self, n) == head + cases + tail;
    assert Mark(l) !in head;
    CasesCodeAt(self, n);
    FindMarkAppend(head + cases, tail, l);
    FindMarkAppend(head, cases, l);
    if l.CaseLabel? {
      CaseMarkAt(self, n, l.index);
      FindMarkSpec(cases, l);
    } else {
      LaterCasesNotPlaced(self, n, l);
      assert tail[0] == Mark(l);
      FindMarkSpec(tail, l);
    }
  }

  /** Case i of `invoke`: its label at 8 + 3i, the call of m<i> after it, then a return. */
  lemma DispatchCaseAt(self: InternalName, n: nat, i: nat)
    requires i < n
    ensures var code := DispatchCode(self, n);
      && 11 + 3 * i <= |code|
      && code[8 + 3 * i] == Mark(CaseLabel(i))
      && code[9 + 3 * i] == MethodCall(InvokeSpecial, self, HelperName(i), Uniform)
      && code[10 + 3 * i] == AReturn
  {
    DispatchLayout(self, n);
    var code := DispatchCode(self, n);
    var c := code[8 + 3 * i..11 + 3 * i];
    assert c == CaseCode(self, i);
    assert code[8 + 3 * i] == c[0] && code[9 + 3 * i] == c[1] && code[10 + 3 * i] == c[2];
  }

  /** The default case of `invoke`: its label after all cases, the call of `noSuchMethod`, a return, the end. */
  lemma DispatchDefaultAt(self: InternalName, n: nat)
    ensures var code := DispatchCode(self, n);
      && |code| == 12 + 3 * n
      && code[8 + 3 * n] == Mark(DefaultLabel)
      && code[9 + 3 * n] == NoSuchMethodCall(self)
      && code[10 + 3 * n] == AReturn
      && code[11 + 3 * n] == EndMethod
  {
    DispatchLayout(self, n);
    var code := DispatchCode(self, n);
    var c := code[8 + 3 * n..];
    assert c == DefaultCode(self) + [EndMethod];
    assert code[8 + 3 * n] == c[0] && code[9 + 3 * n] == c[1] && code[10 + 3 * n] == c[2] && code[11 + 3 * n] == c[3];
  }

  /**
   * Routing: whatever index `getMethodIndex` yields, the switch lands on a
   * label that is placed in `invoke`, is followed by the call of helper
   * m<key-1> when 1 <= key <= n and of `noSuchMethod` otherwise, and then by a
   * return, so no case falls through into the next.
   */
  lemma DispatchRoutes(self: InternalName, n: nat, key: int)
    ensures |SwitchKeys(n)| == |CaseLabels(n)|
    ensures var code := DispatchCode(self, n);
      var p := FindMark(code, SwitchTarget(SwitchKeys(n), CaseLabels(n), DefaultLabel, key));
      && 0 <= p && p + 2 < |code|
      && code[p + 1] == (if 1 <= key <= n then MethodCall(InvokeSpecial, self, HelperName(key - 1), Uniform)
                         else NoSuchMethodCall(self))
      && code[p + 2] == AReturn
  {
    SwitchSelects(n, key);
    var p := FindMark(DispatchCode(self, n), SwitchTarget(SwitchKeys(n), CaseLabels(n), DefaultLabel, key));
    if 1 <= key <= n {
      DispatchMarks(self, n, CaseLabel(key - 1));
      DispatchCaseAt(self, n, key - 1);
      assert p + 1 == 9 + 3 * (key - 1) && p + 2 == 10 + 3 * (key - 1);
    } else {
      DispatchMarks(self, n, DefaultLabel);
      DispatchDefaultAt(self, n);
      assert p + 1 == 9 + 3 * n && p + 2 == 10 + 3 * n;
    }
  }

  /** The key of descriptor i, i + 1, reaches the call of m<i> and then a return. */
  lemma CaseRoutes(self: InternalName, n: nat, i: nat)
    requires i < n
    ensures |SwitchKeys(n)| == |CaseLabels(n)|
    ensures var code := DispatchCode(self, n);
      var p := FindMark(code, SwitchTarget(SwitchKeys(n), CaseLabels(n), DefaultLabel, i + 1));
      && 0 <= p && p + 2 < |code|
      && code[p + 1] == MethodCall(InvokeSpecial, self, HelperName(i), Uniform)
      && code[p + 2] == AReturn
  {
    DispatchRoutes(self, n, i + 1);
  }

  /** `invoke` calls `noSuchMethod` once, in its default case, and nowhere else. */
  lemma NoSuchMethodOnce(self: InternalName, n: nat)
    ensures var code := DispatchCode(self, n);
      forall k :: 0 <= k < |code| ==> (code[k] == NoSuchMethodCall(self) <==> k == 9 + 3 * n)
  {
    var x := NoSuchMethodCall(self);
    var code := DispatchCode(self, n);
    DispatchLayout(self, n);
    DispatchDefaultAt(self, n);
    forall k | 0 <= k < |code|
      ensures code[k] == x <==> k == 9 + 3 * n
    {
      if k < 7 {
        assert code[k] == code[..7][k];
      } else if 8 <= k < 8 + 3 * n {
        var i := (k - 8) / 3;
        assert 8 + 3 * i <= k < 11 + 3 * i;
        assert code[k] == code[8 + 3 * i..11 + 3 * i][k - 8 - 3 * i];
        assert x !in CaseCode(self, i);
      } else if 8 + 3 * n <= k {
        var tail := code[8 + 3 * n..];
        assert code[k] == tail[k - 8 - 3 * n];
      }
    }
  }

  // ---- loadParameters -------------------------------------------------------

  /** Parameter i is unpacked at 4i: load the array, push i, load the element, coerce it. */
  lemma {:induction false} LoadParametersAt(ps: seq<ClassRef>, a: nat)
    ensures |LoadParametersCode(ps, a)| == 4 * |ps|
    ensures forall i :: 0 <= i < |ps| ==>
              LoadParametersCode(ps, a)[4 * i..4 * i + 4] == [ALoad(a), PushConst(i), AALoad, Coercion(ps[i])]
  {
    if ps != [] {
      var init := ps[..|ps| - 1];
      LoadParametersAt(init, a);
      var code := LoadParametersCode(ps, a);
      assert code == LoadParametersCode(init, a) + ArgumentCode(a, |ps| - 1, ps[|ps| - 1]);
      forall i | 0 <= i < |ps|
        ensures code[4 * i..4 * i + 4] == [ALoad(a), PushConst(i), AALoad, Coercion(ps[i])]
      {
        if i < |ps| - 1 {
          assert code[4 * i..4 * i + 4] == LoadParametersCode(init, a)[4 * i..4 * i + 4];
        }
      }
    }
  }

  /** A primitive parameter is unboxed, any other is cast to its exact type. */
  lemma CoercionKind(t: ClassRef)
    ensures t.primitive ==> Coercion(t) == Unbox(t)
    ensures !t.primitive ==> Coercion(t) == Cast(t)
  {
  }

  predicate IsArgumentInstr(x: Instr, a: nat)
  {
    x == ALoad(a) || x.PushConst? || x == AALoad || x.Unbox? || x.Cast?
  }

  /**
   * Unpacking reads only local `a`, indexes the array once per parameter (so
   * never for zero parameters), and emits nothing else.
   */
  lemma {:induction false} LoadParametersCounts(ps: seq<ClassRef>, a: nat)
    ensures forall x :: x in LoadParametersCode(ps, a) ==> IsArgumentInstr(x, a)
    ensures multiset(LoadParametersCode(ps, a))[AALoad] == |ps|
    ensures multiset(LoadParametersCode(ps, a))[ALoad(a)] == |ps|
  {
    if ps != [] {
      LoadParametersCounts(ps[..|ps| - 1], a);
    }
  }

  // ---- invokeMethod ---------------------------------------------------------

  /** The three parts of a concatenation, recovered by slicing. */
  lemma ConcatParts(a: seq<Instr>, b: seq<Instr>, c: seq<Instr>)
    ensures (a + b + c)[..|a|] == a
    ensures (a + b + c)[|a|..|a| + |b|] == b
    ensures (a + b + c)[|a| + |b|..] == c
  {
    assert (a + b + c)[..|a|] == a;
    assert (a + b + c)[|a|..|a| + |b|] == b;
    assert (a + b + c)[|a| + |b|..] == c;
  }

  /**
   * The shape of a thunk: a static call unpacks the arguments and calls
   * INVOKESTATIC; an instance call first loads the receiver (local 2) and casts
   * it to the call class, then calls INVOKEINTERFACE when there is an
   * interface class and INVOKEVIRTUAL otherwise. The call class is the
   * interface class when there is one, else the declaring class. Both end by
   * boxing the return type.
   */
  lemma ThunkShape(m: MetaMethod)
    ensures var code := ThunkCode(m);
      var k := 4 * |m.parameterTypes|;
      var target := if m.interfaceClass.Some? then m.interfaceClass.value else m.callClass;
      var call := MethodCall(
        if m.isStatic then InvokeStatic else if m.interfaceClass.Some? then InvokeInterface else InvokeVirtual,
        InternalNameOf(target.name), Named(m.name), MethodDescriptorOf(m.returnType, m.parameterTypes));
      var start := if m.isStatic then 0 else 2;
      && |code| == start + k + 2
      && (!m.isStatic ==> code[0] == ALoad(ReceiverLocal) && code[1] == Cast(target))
      && code[start..start + k] == LoadParametersCode(m.parameterTypes, ArgumentsLocal)
      && code[start + k] == call
      && code[start + k + 1] == Box(m.returnType)
  {
    LoadParametersAt(m.parameterTypes, ArgumentsLocal);
    var r := ReceiverCode(m);
    var lp := LoadParametersCode(m.parameterTypes, ArgumentsLocal);
    var c := [TargetCall(m), Box(m.returnType)];
    ConcatParts(r, lp, c);
    var code := ThunkCode(m);
    assert code[|r| + |lp|] == code[|r| + |lp|..][0];
    assert code[|r| + |lp| + 1] == code[|r| + |lp|..][1];
  }

  /** A thunk ends with the call and the boxing of its result. */
  lemma ThunkEnd(m: MetaMethod)
    ensures |ThunkCode(m)| >= 2 && ThunkCode(m)[|ThunkCode(m)| - 1] == Box(m.returnType)
  {
    var r := ReceiverCode(m);
    var lp := LoadParametersCode(m.parameterTypes, ArgumentsLocal);
    ConcatParts(r, lp, [TargetCall(m), Box(m.returnType)]);
  }

  /** What a thunk never contains: a method declaration, a method end, or the null constant. */
  lemma ThunkInstrs(m: MetaMethod)
    ensures forall x :: x in ThunkCode(m) ==> !x.BeginMethod? && x != EndMethod && x != AConstNull
  {
    var r := ReceiverCode(m);
    var lp := LoadParametersCode(m.parameterTypes, ArgumentsLocal);
    var c := [TargetCall(m), Box(m.returnType)];
    LoadParametersCounts(m.parameterTypes, ArgumentsLocal);
    forall x | x in ThunkCode(m)
      ensures !x.BeginMethod? && x != EndMethod && x != AConstNull
    {
      assert x in r || x in lp || x in c;
      if x in lp {
        assert IsArgumentInstr(x, ArgumentsLocal);
      }
    }
  }

  /** The receiver is loaded once for an instance call and never for a static one. */
  lemma ReceiverLoadedOnlyForInstanceCalls(m: MetaMethod)
    ensures multiset(ThunkCode(m))[ALoad(ReceiverLocal)] == if m.isStatic then 0 else 1
  {
    LoadParametersCounts(m.parameterTypes, ArgumentsLocal);
    assert !IsArgumentInstr(ALoad(ReceiverLocal), ArgumentsLocal);
  }

  /** A thunk indexes the argument array exactly once per declared parameter. */
  lemma ArgumentsIndexedPerParameter(m: MetaMethod)
    ensures multiset(ThunkCode(m))[AALoad] == |m.parameterTypes|
  {
    LoadParametersCounts(m.parameterTypes, ArgumentsLocal);
  }

  // ---- the helpers m<i> -----------------------------------------------------

  /**
   * Helper m<i> is declared private with the uniform signature, contains the
   * thunk, and ends with ARETURN, closing the method.
   */
  lemma HelperShape(i: nat, m: MetaMethod)
    ensures var code := HelperCode(i, m);
      && code[0] == BeginMethod(Private, HelperName(i), Uniform)
      && code[1..|ThunkCode(m)| + 1] == ThunkCode(m)
      && code[|code| - 2..] == [AReturn, EndMethod]
  {
    ThunkEnd(m);
    HelperParts(HelperDeclaration(i), ThunkCode(m), HelperReturn(m));
  }

  /** The null sentinel is pushed just before the return exactly when the return type is `void`. */
  lemma HelperReturnsNull(i: nat, m: MetaMethod)
    ensures var code := HelperCode(i, m);
      |code| >= 3 && (m.returnType == VoidClass <==> code[|code| - 3] == AConstNull)
  {
    ThunkEnd(m);
    HelperParts(HelperDeclaration(i), ThunkCode(m), HelperReturn(m));
  }

  /** The null sentinel occurs once in a helper for a `void` call, and not at all otherwise. */
  lemma HelperNullCount(i: nat, m: MetaMethod)
    ensures multiset(HelperCode(i, m))[AConstNull] == if m.returnType == VoidClass then 1 else 0
  {
    var t := ThunkCode(m);
    ThunkEnd(m);
    ReturnNulls(m);
    assert multiset(t)[AConstNull] == 0 by {
      ThunkInstrs(m);
      assert AConstNull !in t;
    }
    HelperPartCounts(HelperDeclaration(i), t, HelperReturn(m), AConstNull);
  }

  /** The helpers for positions i .. j-1 of `ms`, in order. */
  function HelpersRange(ms: seq<MetaMethod>, i: nat, j: nat): seq<Instr>
    requires i <= j <= |ms|
    decreases j - i
  {
    if j == i then [] else HelpersRange(ms, i, j - 1) + HelperCode(j - 1, ms[j - 1])
  }

  lemma {:induction false} HelpersRangeSplit(ms: seq<MetaMethod>, i: nat, j: nat)
    requires i <= j <= |ms|
    ensures HelpersCode(ms[..j]) == HelpersCode(ms[..i]) + HelpersRange(ms, i, j)
    decreases j - i
  {
    if j > i {
      HelpersRangeSplit(ms, i, j - 1);
      HelpersRangeStep(ms, i, j);
    }
  }

  lemma HelpersRangeStep(ms: seq<MetaMethod>, i: nat, j: nat)
    requires i < j <= |ms|
    requires HelpersCode(ms[..j - 1]) == HelpersCode(ms[..i]) + HelpersRange(ms, i, j - 1)
    ensures HelpersCode(ms[..j]) == HelpersCode(ms[..i]) + HelpersRange(ms, i, j)
  {
    var pre := HelpersCode(ms[..i]);
    var mid := HelpersRange(ms, i, j - 1);
    var last := HelperCode(j - 1, ms[j - 1]);
    HelpersSnoc(ms, j - 1);
    ConcatAssoc(pre, mid, last);
  }

  lemma ConcatAssoc(a: seq<Instr>, b: seq<Instr>, c: seq<Instr>)
    ensures a + b + c == a + (b + c)
  {
  }

  lemma HelpersSnoc(ms: seq<MetaMethod>, i: nat)
    requires i < |ms|
    ensures HelpersCode(ms[..i + 1]) == HelpersCode(ms[..i]) + HelperCode(i, ms[i])
  {
    assert ms[..i + 1][..i] == ms[..i];
  }

  /** The helpers of `ms` are those before position i, then the helper for ms[i], then those after it. */
  lemma HelpersCodeAt(ms: seq<MetaMethod>, i: nat)
    requires i < |ms|
    ensures HelpersCode(ms) == HelpersCode(ms[..i]) + HelperCode(i, ms[i]) + HelpersRange(ms, i + 1, |ms|)
  {
    HelpersRangeSplit(ms, i + 1, |ms|);
    assert ms[..|ms|] == ms;
    assert ms[..i + 1][..i] == ms[..i];
  }

  /**
   * Between the declaration of helper m<i> and its end lie the call of the
   * descriptor and no other method boundary.
   */
  lemma HelperBody(i: nat, m: MetaMethod)
    ensures var h := HelperCode(i, m);
      && |h| >= 4
      && h[0] == HelperDeclaration(i)
      && h[|h| - 1] == EndMethod
      && (forall k :: 0 < k < |h| - 1 ==> !h[k].BeginMethod? && h[k] != EndMethod)
      && TargetCall(m) in h[1..|h| - 1]
  {
    var t := ThunkCode(m);
    var r := HelperReturn(m);
    var h := HelperCode(i, m);
    var inner := h[1..|h| - 1];
    assert inner == t + r[..|r| - 1];
    assert forall x :: x in t ==> !x.BeginMethod? && x != EndMethod by {
      ThunkInstrs(m);
    }
    forall k | 0 < k < |h| - 1
      ensures !h[k].BeginMethod? && h[k] != EndMethod
    {
      assert h[k] == inner[k - 1];
    }
    assert TargetCall(m) in t;
  }

  /**
   * A method placed in a longer stream keeps its boundaries: its declaration
   * at the length of what precedes it, its end where it ends, and no other
   * boundary in between.
   */
  lemma Placed(a: seq<Instr>, h: seq<Instr>, b: seq<Instr>, decl: Instr, call: Instr, code: seq<Instr>, d: int, e: int)
    requires |h| >= 2 && h[0] == decl && h[|h| - 1] == EndMethod
    requires forall k :: 0 < k < |h| - 1 ==> !h[k].BeginMethod? && h[k] != EndMethod
    requires call in h[1..|h| - 1]
    requires code == a + h + b && d == |a| && e == |a| + |h| - 1
    ensures 0 <= d < e < |code|
    ensures code[d] == decl && code[e] == EndMethod
    ensures forall k :: d < k < e ==> !code[k].BeginMethod? && code[k] != EndMethod
    ensures call in code[d + 1..e]
  {
    assert code[d..d + |h|] == h;
    assert code[d + 1..e] == h[1..|h| - 1];
    forall k | d < k < e
      ensures !code[k].BeginMethod? && code[k] != EndMethod
    {
      assert code[k] == h[k - d];
    }
  }

  lemma Regroup(x: seq<Instr>, d: seq<Instr>, p: seq<Instr>, h: seq<Instr>, r: seq<Instr>, e: seq<Instr>)
    ensures x + (d + (p + h + r)) + e == (x + d + p) + h + (r + e)
  {
  }

  /** The length of `invoke` for n descriptors. */
  lemma DispatchLength(self: InternalName, n: nat)
    ensures |DispatchCode(self, n)| == 12 + 3 * n
  {
    CasesCodeAt(self, n);
  }

  /** Where the declaration of m<i> sits in the class: after the header, the constructor, `invoke` and the earlier helpers. */
  function HelperStart(ms: seq<MetaMethod>, i: nat): nat
    requires i < |ms|
  {
    17 + 3 * |ms| + |HelpersCode(ms[..i])|
  }

  /** Where the end of m<i> sits in the class. */
  function HelperEnd(ms: seq<MetaMethod>, i: nat): nat
    requires i < |ms|
  {
    HelperStart(ms, i) + |HelperCode(i, ms[i])| - 1
  }

  /**
   * The method that the class declares as m<i> is the helper for ms[i]: it
   * starts at its declaration, ends at the first method end after it, and
   * makes the call of ms[i] in between.
   */
  lemma HelperInClass(className: string, ms: seq<MetaMethod>, i: nat)
    requires i < |ms|
    ensures 0 <= HelperStart(ms, i) < HelperEnd(ms, i) < |ClassCode(className, ms)|
    ensures ClassCode(className, ms)[HelperStart(ms, i)] == HelperDeclaration(i)
    ensures ClassCode(className, ms)[HelperEnd(ms, i)] == EndMethod
    ensures forall k :: HelperStart(ms, i) < k < HelperEnd(ms, i) ==>
              !ClassCode(className, ms)[k].BeginMethod? && ClassCode(className, ms)[k] != EndMethod
    ensures TargetCall(ms[i]) in ClassCode(className, ms)[HelperStart(ms, i) + 1..HelperEnd(ms, i)]
  {
    var self := InternalNameOf(Name(className));
    var x := [ClassHeader(self, ReflectorType)] + ConstructorCode();
    var dispatch := DispatchCode(self, |ms|);
    var pre := HelpersCode(ms[..i]);
    var h := HelperCode(i, ms[i]);
    var rest := HelpersRange(ms, i + 1, |ms|);
    HelpersCodeAt(ms, i);
    DispatchLength(self, |ms|);
    Regroup(x, dispatch, pre, h, rest, [EndClass]);
    var code := ClassCode(className, ms);
    assert code == (x + dispatch + pre) + h + (rest + [EndClass]);
    HelperBody(i, ms[i]);
    Placed(x + dispatch + pre, h, rest + [EndClass], HelperDeclaration(i), TargetCall(ms[i]),
           code, HelperStart(ms, i), HelperEnd(ms, i));
  }

  /** Where the three parts of a helper sit in it. */
  lemma HelperParts(d: Instr, t: seq<Instr>, r: seq<Instr>)
    requires |t| >= 1 && |r| >= 2
    ensures var code := [d] + t + r;
      && code[0] == d
      && code[1..|t| + 1] == t
      && code[|code| - 2..] == r[|r| - 2..]
      && code[|code| - 3] == (if |r| == 2 then t[|t| - 1] else r[|r| - 3])
  {
    var code := [d] + t + r;
    assert code[1..|t| + 1] == t;
    assert code[|code| - 2..] == r[|r| - 2..];
  }

  /** How the count of an instruction in a helper splits over its three parts. */
  lemma HelperPartCounts(d: Instr, t: seq<Instr>, r: seq<Instr>, x: Instr)
    ensures multiset([d] + t + r)[x] == multiset([d])[x] + multiset(t)[x] + multiset(r)[x]
  {
    assert multiset([d] + t + r) == multiset([d]) + multiset(t) + multiset(r);
  }

  lemma ReturnNulls(m: MetaMethod)
    ensures multiset(HelperReturn(m))[AConstNull] == if m.returnType == VoidClass then 1 else 0
  {
  }

  // ---- the declared methods -------------------------------------------------

  lemma {:induction false} DeclarationsAppend(a: seq<Instr>, b: seq<Instr>)
    ensures Declarations(a + b) == Declarations(a) + Declarations(b)
    decreases |b|
  {
    if b == [] {
      assert a + b == a;
    } else {
      assert (a + b)[..|a + b| - 1] == a + b[..|b| - 1];
      DeclarationsAppend(a, b[..|b| - 1]);
    }
  }

  lemma DeclarationsAppend3(a: seq<Instr>, b: seq<Instr>, c: seq<Instr>)
    ensures Declarations(a + b + c) == Declarations(a) + Declarations(b) + Declarations(c)
  {
    DeclarationsAppend(a + b, c);
    DeclarationsAppend(a, b);
  }

  lemma DeclarationsAppend5(a: seq<Instr>, b: seq<Instr>, c: seq<Instr>, d: seq<Instr>, e: seq<Instr>)
    ensures Declarations(a + b + c + d + e)
            == Declarations(a) + Declarations(b) + Declarations(c) + Declarations(d) + Declarations(e)
  {
    DeclarationsAppend(a + b + c + d, e);
    DeclarationsAppend(a + b + c, d);
    DeclarationsAppend3(a, b, c);
  }

  lemma {:induction false} NoDeclarations(code: seq<Instr>)
    requires forall x :: x in code ==> !x.BeginMethod?
    ensures Declarations(code) == []
  {
    if code != [] {
      NoDeclarations(code[..|code| - 1]);
    }
  }

  /** A declaration followed by a body without declarations declares one method. */
  lemma OneDeclaration(d: Instr, body: seq<Instr>)
    requires d.BeginMethod?
    requires forall x :: x in body ==> !x.BeginMethod?
    ensures Declarations([d] + body) == [d]
  {
    DeclarationsAppend([d], body);
    NoDeclarations(body);
    assert [d][..0] == [];
  }

  lemma {:induction false} NoDeclarationsInCases(self: InternalName, n: nat)
    ensures Declarations(CasesCode(self, n)) == []
  {
    if n > 0 {
      NoDeclarationsInCases(self, n - 1);
      DeclarationsAppend(CasesCode(self, n - 1), CaseCode(self, n - 1));
      NoDeclarations(CaseCode(self, n - 1));
    }
  }

  lemma ConstructorDeclares()
    ensures Declarations(ConstructorCode()) == [BeginMethod(Public, InitName, NoArgsVoid)]
  {
    var body := ConstructorCode()[1..];
    assert ConstructorCode() == [BeginMethod(Public, InitName, NoArgsVoid)] + body;
    OneDeclaration(BeginMethod(Public, InitName, NoArgsVoid), body);
  }

  lemma DispatchDeclares(self: InternalName, n: nat)
    ensures Declarations(DispatchCode(self, n)) == [BeginMethod(Public, InvokeName, Uniform)]
  {
    var pro := DispatchPrologue();
    var body := pro[1..];
    assert pro == [BeginMethod(Public, InvokeName, Uniform)] + body;
    OneDeclaration(BeginMethod(Public, InvokeName, Uniform), body);
    var switch := [LookupSwitch(DefaultLabel, SwitchKeys(n), CaseLabels(n))];
    DeclarationsAppend5(pro, switch, CasesCode(self, n), DefaultCode(self), [EndMethod]);
    NoDeclarations(switch);
    NoDeclarationsInCases(self, n);
    NoDeclarations(DefaultCode(self));
    NoDeclarations([EndMethod]);
  }

  lemma HelperDeclares(i: nat, m: MetaMethod)
    ensures Declarations(HelperCode(i, m)) == [HelperDeclaration(i)]
  {
    var d, t, r := [HelperDeclaration(i)], ThunkCode(m), HelperReturn(m);
    ThunkInstrs(m);
    DeclarationsAppend3(d, t, r);
    OneDeclaration(HelperDeclaration(i), []);
    assert d + [] == d;
    NoDeclarations(t);
    NoDeclarations(r);
    assert Declarations(d + t + r) == d + [] + [];
  }

  lemma {:induction false} HelpersDeclare(ms: seq<MetaMethod>)
    ensures Declarations(HelpersCode(ms)) == HelperDeclarations(|ms|)
  {
    if ms != [] {
      var init := ms[..|ms| - 1];
      HelpersDeclare(init);
      DeclarationsAppend(HelpersCode(init), HelperCode(|ms| - 1, ms[|ms| - 1]));
      HelperDeclares(|ms| - 1, ms[|ms| - 1]);
    }
  }

  /**
   * The class declares, in this order, the public constructor, the public
   * `invoke`, and the private helpers m0 .. m(N-1), one per descriptor.
   */
  lemma ClassDeclarations(className: string, ms: seq<MetaMethod>)
    ensures Declarations(ClassCode(className, ms))
            == [BeginMethod(Public, InitName, NoArgsVoid), BeginMethod(Public, InvokeName, Uniform)]
               + HelperDeclarations(|ms|)
  {
    var self := InternalNameOf(Name(className));
    DeclarationsAppend(DispatchCode(self, |ms|), HelpersCode(ms));
    ConstructorDeclares();
    DispatchDeclares(self, |ms|);
    HelpersDeclare(ms);
    TwoDeclaredFirst([ClassHeader(self, ReflectorType)], ConstructorCode(), GenerateInvokeCode(self, ms), [EndClass],
                     BeginMethod(Public, InitName, NoArgsVoid), BeginMethod(Public, InvokeName, Uniform),
                     HelperDeclarations(|ms|));
  }

  /** How the declarations of the class's four parts add up. */
  lemma TwoDeclaredFirst(header: seq<Instr>, ctorCode: seq<Instr>, rest: seq<Instr>, end: seq<Instr>,
                         ctor: Instr, invoke: Instr, helpers: seq<Instr>)
    requires forall x :: x in header ==> !x.BeginMethod?
    requires forall x :: x in end ==> !x.BeginMethod?
    requires Declarations(ctorCode) == [ctor]
    requires Declarations(rest) == [invoke] + helpers
    ensures Declarations(header + ctorCode + rest + end) == [ctor, invoke] + helpers
  {
    DeclarationsAppend3(header + ctorCode, rest, end);
    DeclarationsAppend(header, ctorCode);
    NoDeclarations(header);
    NoDeclarations(end);
    assert [ctor] + ([invoke] + helpers) == [ctor, invoke] + helpers;
  }

  lemma {:induction false} HelperDeclarationsAt(n: nat)
    ensures |HelperDeclarations(n)| == n
    ensures forall i :: 0 <= i < n ==> HelperDeclarations(n)[i] == HelperDeclaration(i)
  {
    if n > 0 {
      HelperDeclarationsAt(n - 1);
    }
  }

  /** Helper m<k> is declared exactly once when k < N, and not at all otherwise. */
  lemma {:induction false} HelperDeclaredOnce(n: nat, k: nat)
    ensures multiset(HelperDeclarations(n))[HelperDeclaration(k)] == if k < n then 1 else 0
  {
    if n > 0 {
      HelperDeclaredOnce(n - 1, k);
      assert HelperDeclarations(n) == HelperDeclarations(n - 1) + [HelperDeclaration(n - 1)];
    }
  }

  /**
   * Every helper that a case of `invoke` calls is declared in the class, once,
   * with the signature the call uses.
   */
  lemma CalledHelpersDeclared(className: string, ms: seq<MetaMethod>, i: nat)
    requires i < |ms|
    ensures MethodCall(InvokeSpecial, InternalNameOf(Name(className)), HelperName(i), Uniform)
              in DispatchCode(InternalNameOf(Name(className)), |ms|)
    ensures multiset(Declarations(ClassCode(className, ms)))[BeginMethod(Private, HelperName(i), Uniform)] == 1
  {
    DispatchCaseAt(InternalNameOf(Name(className)), |ms|, i);
    ClassDeclarations(className, ms);
    HelperDeclaredOnce(|ms|, i);
  }

  // ---- generate -------------------------------------------------------------

  /**
   * The class starts with a header naming `Reflector` as its superclass,
   * followed by the constructor that calls `Reflector.<init>`, then `invoke`
   * and the helpers, and ends with `visitEnd`.
   */
  lemma ClassLayout(className: string, ms: seq<MetaMethod>)
    ensures var code := ClassCode(className, ms);
      var self := InternalNameOf(Name(className));
      && code[0] == ClassHeader(self, ReflectorType)
      && code[1..5] == [BeginMethod(Public, InitName, NoArgsVoid), ALoad(0),
                        MethodCall(InvokeSpecial, ReflectorType, InitName, NoArgsVoid), Return]
      && code[5..|code| - 1] == DispatchCode(self, |ms|) + HelpersCode(ms)
      && code[|code| - 1] == EndClass
  {
  }
}
