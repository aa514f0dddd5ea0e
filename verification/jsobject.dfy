/**
 * `JSObject` (a string-keyed map of variables) and `JSArray` (an object
 * with an element vector besides), the objects that pointer variables
 * designate, and the `operator[]` and `has` overloads of `JSVar` that
 * dispatch on the receiver's tag.
 *
 * Text the source produces with `toString` or `format` from a number or an
 * object, and the `double` to `size_t` conversion, are not modelled: they
 * come in through an `Env`. Decimal text of an index is modelled exactly.
 */
module JsObject {
  import opened Wrappers
  import opened JsValue
  import Decimal

  /**
   * `PlainObject` is a `JSObject`; `ArrayObject` is a `JSArray`, with the
   * element vector's contents and its capacity (which `reserve` and
   * `push_back` use).
   */
  datatype Obj =
    | PlainObject(pairs: map<string, JSVar>)
    | ArrayObject(pairs: map<string, JSVar>, elems: seq<JSVar>, capacity: nat)

  /** The objects alive, by reference, and the reference the next allocation gets. */
  datatype Heap = Heap(objs: map<Ref, Obj>, next: Ref)

  predicate HeapOk(h: Heap)
  {
    forall r :: r in h.objs ==> r < h.next
  }

  /** The formatting and conversions that are not modelled. */
  datatype Env = Env(numText: real -> string, objText: (Heap, Ref) -> string, toIndex: real -> nat)

  /** The argument of the `operator[]` and `has` overloads: a variable, a `size_t` index or a string. */
  datatype Key = VarKey(v: JSVar) | IdxKey(i: nat) | StrKey(s: string)

  /** `make_owning<JSObject>()`: a fresh empty object. */
  function NewObject(h: Heap): (r: (Heap, Ref))
    ensures HeapOk(h) ==> r.1 !in h.objs && HeapOk(r.0)
    ensures r.0.objs == h.objs[r.1 := PlainObject(map[])]
  {
    (Heap(h.objs[h.next := PlainObject(map[])], h.next + 1), h.next)
  }

  /** `JSVar::toString()`: concrete for undefined, booleans and strings; numbers and objects through `env`. */
  function Render(env: Env, h: Heap, v: JSVar): (r: Result<string, JsError>)
    ensures r.Success? <==> !v.Fn? && (IsPointer(v) ==> Target(v) in h.objs)
    ensures v.Str? ==> r == Success(v.s)
    ensures v.Undef? ==> r == Success("undefined")
  {
    match v
    case Undef => Success("undefined")
    case Boolean(b) => Success(if b then "true" else "false")
    case Num(n) => Success(env.numText(n))
    case Str(s) => Success(s)
    case OwnPtr(r) => if r in h.objs then Success(env.objText(h, r)) else Failure(NullDeref)
    case SoftPtr(r) => if r in h.objs then Success(env.objText(h, r)) else Failure(NullDeref)
    case Fn => Failure(UnexpectedType)
  }

  /** The map key an object looks a key up under: rendered text, decimal text of the index, or the string. */
  function KeyName(env: Env, h: Heap, key: Key): (r: Result<string, JsError>)
    ensures key.IdxKey? ==> r.Success? && Decimal.IsIndexText(r.value) && Decimal.Value(r.value) == key.i
    ensures key.IdxKey? ==> r == Success(Decimal.Text(key.i))
    ensures key.StrKey? ==> r == Success(key.s)
  {
    match key
    case VarKey(v) => Render(env, h, v)
    case IdxKey(i) =>
      Decimal.ValueOfText(i);
      Success(Decimal.Text(i))
    case StrKey(s) => Success(s)
  }

  // ---------------------------------------------------------------------
  // JSObject::findOrAdd
  // ---------------------------------------------------------------------

  /**
   * `findOrAdd(key)`: returns a copy of the entry under `key`, first
   * inserting an undefined entry when there is none.
   */
  function FindOrAdd(pairs: map<string, JSVar>, key: string): (r: Result<(JSVar, map<string, JSVar>), JsError>)
    ensures r.Success? <==> !(key in pairs && pairs[key].Fn?)
    ensures r.Success? ==>
      && r.value.1.Keys == pairs.Keys + {key}
      && (forall k :: k in pairs ==> r.value.1[k] == pairs[k])
      && (key !in pairs ==> r.value.1[key] == Undef)
      && Copy(r.value.1[key]) == Success(r.value.0)
  {
    if key in pairs then
      var v :- Copy(pairs[key]);
      Success((v, pairs))
    else
      Success((Undef, pairs[key := Undef]))
  }

  /** A present key leaves the map as it is; a second lookup of any key changes nothing and sees the same value. */
  lemma FindOrAddIdempotent(pairs: map<string, JSVar>, key: string)
    requires FindOrAdd(pairs, key).Success?
    ensures key in pairs ==> FindOrAdd(pairs, key).value.1 == pairs
    ensures var first := FindOrAdd(pairs, key).value;
            FindOrAdd(first.1, key) == Success(first)
  {
  }

  // ---------------------------------------------------------------------
  // JSArray::operator[](size_t)
  // ---------------------------------------------------------------------

  function Max(a: nat, b: nat): nat
  {
    if a < b then b else a
  }

  /**
   * The vector after `reserve(idx + 1)` and the loop that `push_back`s
   * undefined values up to the capacity: `reserve` raises the capacity to
   * `idx + 1` when it is smaller, and the loop fills every reserved slot.
   */
  function Grown(elems: seq<JSVar>, capacity: nat, idx: nat): (r: (seq<JSVar>, nat))
    requires |elems| <= idx
    ensures |r.0| == r.1 == Max(capacity, idx + 1)
    ensures r.0[..|elems|] == elems
    ensures forall i :: |elems| <= i < |r.0| ==> r.0[i] == Undef
  {
    var cap := Max(capacity, idx + 1);
    (elems + seq(cap - |elems|, _ => Undef), cap)
  }

  /** The growth loop, step by step; it computes `Grown`. */
  method Grow(elems: seq<JSVar>, capacity: nat, idx: nat) returns (elems': seq<JSVar>, capacity': nat)
    requires |elems| <= idx
    ensures (elems', capacity') == Grown(elems, capacity, idx)
    ensures idx < |elems'| && elems'[idx] == Undef
  {
    capacity' := if capacity < idx + 1 then idx + 1 else capacity;
    elems' := elems;
    var i := |elems|;
    while i < capacity'
      invariant |elems| <= i <= capacity'
      invariant elems' == elems + seq(i - |elems|, _ => Undef)
    {
      elems' := elems' + [Undef];
      i := i + 1;
    }
    assert i == capacity';
  }

  /**
   * `JSArray::operator[](idx)`: an element in range is copied out and the
   * array is left alone; otherwise the vector grows as `Grown` says and the
   * new (undefined) element is returned.
   */
  function ElementAt(o: Obj, idx: nat): (r: Result<(JSVar, Obj), JsError>)
    requires o.ArrayObject?
    ensures idx < |o.elems| ==> r.Success? == !o.elems[idx].Fn? && (r.Success? ==> r.value.1 == o)
    ensures idx >= |o.elems| ==> r.Success? && r.value.0 == Undef
    ensures r.Success? ==>
      && r.value.1.ArrayObject? && r.value.1.pairs == o.pairs
      && idx < |r.value.1.elems|
      && r.value.1.elems[..|o.elems|] == o.elems
      && (forall i :: |o.elems| <= i < |r.value.1.elems| ==> r.value.1.elems[i] == Undef)
      && Copy(r.value.1.elems[idx]) == Success(r.value.0)
  {
    if idx < |o.elems| then
      var v :- Copy(o.elems[idx]);
      Success((v, o))
    else
      var g := Grown(o.elems, o.capacity, idx);
      Success((Undef, o.(elems := g.0, capacity := g.1)))
  }

  /** Indexing the same position again changes nothing and yields the same value. */
  lemma ElementAtIdempotent(o: Obj, idx: nat)
    requires o.ArrayObject? && ElementAt(o, idx).Success?
    ensures var first := ElementAt(o, idx).value;
            ElementAt(first.1, idx) == Success(first)
  {
  }

  // ---------------------------------------------------------------------
  // Indexing a string
  // ---------------------------------------------------------------------

  /** `substr(idx, 1)`: past the end it throws, at the end it is empty. */
  function Substr1(s: string, idx: nat): (r: Result<string, JsError>)
    ensures r.Success? <==> idx <= |s|
    ensures idx < |s| ==> r == Success([s[idx]])
    ensures idx == |s| ==> r == Success("")
    ensures r.Failure? ==> r.error == OutOfRange
  {
    if idx > |s| then Failure(OutOfRange)
    else if idx == |s| then Success("")
    else Success([s[idx]])
  }

  /** A string indexed by a `size_t`: the one-character string, or undefined out of range. */
  function CharAt(s: string, idx: nat): (v: JSVar)
    ensures v.Str? <==> idx < |s|
    ensures v.Str? ==> |v.s| == 1 && v.s[0] == s[idx]
    ensures !v.Str? ==> v == Undef
    ensures v.Str? ==> Substr1(s, idx) == Success(v.s)
  {
    if idx < |s| then Str([s[idx]]) else Undef
  }

  /**
   * A string indexed by a string key, as written: a key that is all digits
   * goes to `substr` without the bound check the `size_t` overload makes.
   */
  function DigitKeyAsWritten(s: string, k: string): (r: Result<JSVar, JsError>)
    ensures !Decimal.IsIndexText(k) ==> r == Success(Undef)
    ensures Decimal.IsIndexText(k) ==> (r.Success? <==> Decimal.Value(k) <= |s|)
    ensures Decimal.IsIndexText(k) && Decimal.Value(k) < |s| ==> r == Success(CharAt(s, Decimal.Value(k)))
    ensures Decimal.IsIndexText(k) && Decimal.Value(k) == |s| ==> r == Success(Str(""))
    ensures r.Failure? ==> r.error == OutOfRange
  {
    if Decimal.IsIndexText(k) then
      var t :- Substr1(s, Decimal.Value(k));
      Success(Str(t))
    else Success(Undef)
  }

  /** The same with the bound check: a digit key indexes exactly as the index it denotes. */
  function DigitKey(s: string, k: string): (v: JSVar)
    ensures forall i: nat :: k == Decimal.Text(i) ==> v == CharAt(s, i)
    ensures Decimal.IsIndexText(k) ==> v == CharAt(s, Decimal.Value(k))
    ensures !Decimal.IsIndexText(k) ==> v == Undef
  {
    Decimal.ValueOfAnyText(k);
    if Decimal.IsIndexText(k) then CharAt(s, Decimal.Value(k)) else Undef
  }

  /** The string receiver of `JSVar::operator[]`, as written. */
  function StrIndexAsWritten(env: Env, s: string, key: Key): (r: Result<JSVar, JsError>)
    ensures r.Failure? ==> r.error == OutOfRange && (key.StrKey? || (key.VarKey? && key.v.Str?))
    ensures r.Success? ==> r.value == Undef || (r.value.Str? && |r.value.s| <= 1)
    ensures key.IdxKey? ==> r == Success(CharAt(s, key.i))
  {
    match key
    case VarKey(v) =>
      if v.Num? then Success(CharAt(s, env.toIndex(v.n)))
      else if v.Str? then DigitKeyAsWritten(s, v.s)
      else Success(Undef)
    case IdxKey(i) => Success(CharAt(s, i))
    case StrKey(k) => DigitKeyAsWritten(s, k)
  }

  /** The string receiver with every digit key bound-checked. */
  function StrIndex(env: Env, s: string, key: Key): (r: JSVar)
    ensures r == Undef || (r.Str? && |r.s| == 1 && r.s[0] in s)
    ensures key.IdxKey? ==> r == CharAt(s, key.i)
    ensures key.VarKey? && key.v.Num? ==> r == CharAt(s, env.toIndex(key.v.n))
  {
    match key
    case VarKey(v) =>
      if v.Num? then CharAt(s, env.toIndex(v.n))
      else if v.Str? then DigitKey(s, v.s)
      else Undef
    case IdxKey(i) => CharAt(s, i)
    case StrKey(k) => DigitKey(s, k)
  }

  /** As written, the key "n" for a string of length n gives the empty string, and "n+1" throws, where index n gives undefined. */
  lemma DigitKeyPastEnd(env: Env, s: string)
    ensures StrIndexAsWritten(env, s, IdxKey(|s|)) == Success(Undef)
    ensures StrIndexAsWritten(env, s, StrKey(Decimal.Text(|s|))) == Success(Str(""))
    ensures StrIndexAsWritten(env, s, StrKey(Decimal.Text(|s| + 1))) == Failure(OutOfRange)
  {
    Decimal.ValueOfText(|s|);
    Decimal.ValueOfText(|s| + 1);
  }

  /** Corrected, the decimal text of an index and the index itself select the same thing. */
  lemma DigitKeyMatchesIndex(env: Env, s: string, i: nat)
    ensures StrIndex(env, s, StrKey(Decimal.Text(i))) == StrIndex(env, s, IdxKey(i))
    ensures StrIndex(env, s, VarKey(Str(Decimal.Text(i)))) == StrIndex(env, s, IdxKey(i))
  {
    Decimal.ValueOfText(i);
  }

  /** Within range the two agree, so the correction only changes the out-of-range keys. */
  lemma StrIndexAgreesInRange(env: Env, s: string, key: Key)
    requires key.StrKey? && Decimal.IsIndexText(key.s) ==> Decimal.Value(key.s) < |s|
    requires key.VarKey? && key.v.Str? && Decimal.IsIndexText(key.v.s) ==> Decimal.Value(key.v.s) < |s|
    ensures StrIndexAsWritten(env, s, key) == Success(StrIndex(env, s, key))
  {
  }

  // ---------------------------------------------------------------------
  // Indexing an object and a variable
  // ---------------------------------------------------------------------

  /** `JSObject::operator[]` and `JSArray::operator[]` on object `o`: the value found and the object afterwards. */
  function ObjIndex(env: Env, h: Heap, o: Obj, key: Key): (r: Result<(JSVar, Obj), JsError>)
    ensures r.Success? ==> r.value.1.PlainObject? == o.PlainObject?
    ensures r.Success? ==> o.pairs.Keys <= r.value.1.pairs.Keys && forall k :: k in o.pairs ==> r.value.1.pairs[k] == o.pairs[k]
    ensures o.PlainObject? && r.Success? ==> KeyName(env, h, key).Success? && KeyName(env, h, key).value in r.value.1.pairs
    ensures o.ArrayObject? && key.IdxKey? ==> r == ElementAt(o, key.i)
    ensures o.ArrayObject? && key.StrKey? && Decimal.IsIndexText(key.s) ==> r == ElementAt(o, Decimal.Value(key.s))
    ensures o.ArrayObject? && key.StrKey? && !Decimal.IsIndexText(key.s) && r.Success? ==>
              r.value.1.elems == o.elems && key.s in r.value.1.pairs
  {
    if o.PlainObject? then
      var name :- KeyName(env, h, key);
      var found :- FindOrAdd(o.pairs, name);
      Success((found.0, PlainObject(found.1)))
    else
      match key
      case VarKey(v) =>
        if v.Num? then ElementAt(o, env.toIndex(v.n))
        else
          var name :- Render(env, h, v);
          var found :- FindOrAdd(o.pairs, name);
          Success((found.0, o.(pairs := found.1)))
      case IdxKey(i) => ElementAt(o, i)
      case StrKey(k) =>
        if Decimal.IsIndexText(k) then ElementAt(o, Decimal.Value(k))
        else
          var found :- FindOrAdd(o.pairs, k);
          Success((found.0, o.(pairs := found.1)))
  }

  /**
   * `JSVar::operator[]`: the receiver afterwards, the heap afterwards and the
   * value found. An undefined receiver first becomes an owning pointer to a
   * fresh empty object; booleans and numbers give undefined; strings give
   * characters (with every digit key bound-checked, as `StrIndex` does);
   * pointers delegate to the object.
   */
  function Index(env: Env, h: Heap, recv: JSVar, key: Key): (r: Result<(JSVar, Heap, JSVar), JsError>)
    ensures recv.Boolean? || recv.Num? ==> r == Success((recv, h, Undef))
    ensures recv.Str? ==>
              && r.Success? && r.value.0 == recv && r.value.1 == h
              && (r.value.2 == Undef || (r.value.2.Str? && |r.value.2.s| == 1))
    ensures r.Success? && !recv.Undef? ==> r.value.0 == recv
    ensures r.Success? && recv.Undef? ==> r.value.0 == OwnPtr(h.next)
  {
    match recv
    case Undef =>
      var alloc := NewObject(h);
      var found :- ObjIndex(env, alloc.0, alloc.0.objs[alloc.1], key);
      Success((OwnPtr(alloc.1), alloc.0.(objs := alloc.0.objs[alloc.1 := found.1]), found.0))
    case Boolean(_) => Success((recv, h, Undef))
    case Num(_) => Success((recv, h, Undef))
    case Str(s) => Success((recv, h, StrIndex(env, s, key)))
    case OwnPtr(r) => PointerIndex(env, h, recv, r, key)
    case SoftPtr(r) => PointerIndex(env, h, recv, r, key)
    case Fn => Failure(UnexpectedType)
  }

  function PointerIndex(env: Env, h: Heap, recv: JSVar, r: Ref, key: Key): (res: Result<(JSVar, Heap, JSVar), JsError>)
    ensures res.Success? ==> r in h.objs && res.value.0 == recv
    ensures res.Success? ==> res.value.1.objs.Keys == h.objs.Keys && res.value.1.next == h.next
    ensures res.Success? ==> forall q :: q in h.objs && q != r ==> res.value.1.objs[q] == h.objs[q]
    ensures r !in h.objs ==> res == Failure(NullDeref)
    ensures r in h.objs ==>
              var o := ObjIndex(env, h, h.objs[r], key);
              && (res.Success? <==> o.Success?)
              && (o.Success? ==> res.value.2 == o.value.0 && res.value.1.objs[r] == o.value.1)
  {
    if r !in h.objs then Failure(NullDeref)
    else
      var found :- ObjIndex(env, h, h.objs[r], key);
      Success((recv, h.(objs := h.objs[r := found.1]), found.0))
  }

  /**
   * Indexing an undefined variable is indexing a fresh empty object through
   * an owning pointer to it: the receiver becomes that pointer, and no
   * object that existed before changes.
   */
  lemma IndexUndefDelegates(env: Env, h: Heap, key: Key)
    requires HeapOk(h)
    ensures var alloc := NewObject(h);
            && Index(env, h, Undef, key) == Index(env, alloc.0, OwnPtr(alloc.1), key)
            && (Index(env, h, Undef, key).Success? ==>
                  var after := Index(env, h, Undef, key).value.1;
                  && after.objs.Keys == h.objs.Keys + {h.next}
                  && (forall q :: q in h.objs ==> after.objs[q] == h.objs[q])
                  && after.objs[h.next].PlainObject?
                  && after.objs[h.next].pairs.Keys <= {KeyName(env, alloc.0, key).value})
  {
  }

  // ---------------------------------------------------------------------
  // has
  // ---------------------------------------------------------------------

  /**
   * `JSObject::has` and `JSArray::has`, as written: every overload looks
   * the key's name up in `pairs`, the `size_t` overload of `JSArray`
   * included.
   */
  function ObjHas(env: Env, h: Heap, o: Obj, key: Key): (r: Result<bool, JsError>)
    ensures key.IdxKey? ==> r == Success(Decimal.Text(key.i) in o.pairs)
    ensures o.PlainObject? && ObjIndex(env, h, o, key).Success? ==>
              r.Success? && (r.value <==> ObjIndex(env, h, o, key).value.1 == o)
  {
    var name :- KeyName(env, h, key);
    Success(name in o.pairs)
  }

  /** `JSArray::has(size_t)` counting the elements as well. */
  function ObjHasCorrected(env: Env, h: Heap, o: Obj, key: Key): (r: Result<bool, JsError>)
    ensures o.ArrayObject? && key.IdxKey? ==> r == Success(key.i < |o.elems| || Decimal.Text(key.i) in o.pairs)
    ensures !(o.ArrayObject? && key.IdxKey?) ==> r == ObjHas(env, h, o, key)
    ensures o.ArrayObject? && key.IdxKey? && ElementAt(o, key.i).Success? && ElementAt(o, key.i).value.1 == o ==>
              r == Success(true)
    ensures o.ArrayObject? && key.IdxKey? && r == Success(false) ==>
              ElementAt(o, key.i).Success? && key.i < |ElementAt(o, key.i).value.1.elems| && ElementAt(o, key.i).value.1 != o
  {
    if o.ArrayObject? && key.IdxKey? then Success(key.i < |o.elems| || Decimal.Text(key.i) in o.pairs)
    else ObjHas(env, h, o, key)
  }

  /**
   * `JSVar::has`: only pointer variables can contain anything; the object
   * answers as `ObjHasCorrected` does.
   */
  function Has(env: Env, h: Heap, recv: JSVar, key: Key): (r: Result<bool, JsError>)
    ensures !IsPointer(recv) && !recv.Fn? ==> r == Success(false)
    ensures recv.Fn? ==> r == Failure(UnexpectedType)
    ensures IsPointer(recv) ==> (r.Success? ==> Target(recv) in h.objs) && (Target(recv) !in h.objs ==> r == Failure(NullDeref))
    ensures IsPointer(recv) && Target(recv) in h.objs ==> r == ObjHasCorrected(env, h, h.objs[Target(recv)], key)
  {
    match recv
    case OwnPtr(r) => if r in h.objs then ObjHasCorrected(env, h, h.objs[r], key) else Failure(NullDeref)
    case SoftPtr(r) => if r in h.objs then ObjHasCorrected(env, h, h.objs[r], key) else Failure(NullDeref)
    case Fn => Failure(UnexpectedType)
    case _ => Success(false)
  }

  /** For a plain object, indexing by an index or a string adds what `has` then finds. */
  lemma IndexThenHasObject(env: Env, h: Heap, recv: JSVar, key: Key)
    requires IsPointer(recv) && Target(recv) in h.objs && h.objs[Target(recv)].PlainObject?
    requires !key.VarKey?
    requires Index(env, h, recv, key).Success?
    ensures Has(env, Index(env, h, recv, key).value.1, recv, key) == Success(true)
  {
  }

  /** As written, an array reports no element: `has(0)` is false right after `[0]` found one. */
  lemma ArrayHasMissesElements(env: Env)
    ensures var h := Heap(map[0 := ArrayObject(map[], [Num(1.0)], 1)], 1);
            && Index(env, h, OwnPtr(0), IdxKey(0)) == Success((OwnPtr(0), h, Num(1.0)))
            && ObjHas(env, h, h.objs[0], IdxKey(0)) == Success(false)
  {
    var o := ArrayObject(map[], [Num(1.0)], 1);
    var h := Heap(map[0 := o], 1);
    assert ElementAt(o, 0) == Success((Num(1.0), o));
    assert h.objs[0 := o] == h.objs;
    assert Decimal.Text(0) == "0";
  }

  /** Counting elements, every index an array was indexed at is one it has. */
  lemma IndexThenHasArray(env: Env, h: Heap, recv: JSVar, i: nat)
    requires IsPointer(recv) && Target(recv) in h.objs && h.objs[Target(recv)].ArrayObject?
    requires Index(env, h, recv, IdxKey(i)).Success?
    ensures Has(env, Index(env, h, recv, IdxKey(i)).value.1, recv, IdxKey(i)) == Success(true)
  {
  }

  // ---------------------------------------------------------------------
  // operator!
  // ---------------------------------------------------------------------

  /** The truth value of a variable in a condition; a pointer to no live object is a null pointer. */
  predicate Truthy(h: Heap, v: JSVar)
    requires !v.Fn?
  {
    match v
    case Undef => false
    case Boolean(b) => b
    case Num(n) => n != 0.0
    case Str(s) => |s| > 0
    case OwnPtr(r) => r in h.objs
    case SoftPtr(r) => r in h.objs
  }

  /**
   * `operator!` as written: the number case compares the payload's address
   * with zero, which is never null, and the pointer cases test for a
   * non-null pointer.
   */
  function NotAsWritten(h: Heap, v: JSVar): (r: Result<bool, JsError>)
    ensures r.Success? <==> !v.Fn?
    ensures v.Num? ==> r == Success(false)
  {
    match v
    case Undef => Success(true)
    case Boolean(b) => Success(!b)
    case Num(_) => Success(false)
    case Str(s) => Success(|s| == 0 || s == "false")
    case OwnPtr(r) => Success(r in h.objs)
    case SoftPtr(r) => Success(r in h.objs)
    case Fn => Failure(UnexpectedType)
  }

  /** `!0` is false and `!obj` is true for a live object, the opposite of their truth values. */
  lemma NotAsWrittenInverts(h: Heap, r: Ref)
    requires r in h.objs
    ensures NotAsWritten(h, Num(0.0)) == Success(false) && !Truthy(h, Num(0.0))
    ensures NotAsWritten(h, OwnPtr(r)) == Success(true) && Truthy(h, OwnPtr(r))
    ensures NotAsWritten(h, SoftPtr(r)) == Success(true) && Truthy(h, SoftPtr(r))
  {
  }

  /** `operator!` comparing the number itself with zero and testing pointers for null. */
  function Not(h: Heap, v: JSVar): (r: Result<bool, JsError>)
  {
    match v
    case Undef => Success(true)
    case Boolean(b) => Success(!b)
    case Num(n) => Success(n == 0.0)
    case Str(s) => Success(|s| == 0 || s == "false")
    case OwnPtr(r) => Success(r !in h.objs)
    case SoftPtr(r) => Success(r !in h.objs)
    case Fn => Failure(UnexpectedType)
  }

  /**
   * `Not` negates the truth value of every variable except the string
   * "false", which it also calls false; the function tag is refused.
   */
  lemma NotNegatesTruth(h: Heap, v: JSVar)
    ensures v.Fn? <==> Not(h, v) == Failure(UnexpectedType)
    ensures !v.Fn? && v != Str("false") ==> Not(h, v) == Success(!Truthy(h, v))
    ensures Not(h, Str("false")) == Success(true)
  {
  }
}
