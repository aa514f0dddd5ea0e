/**
 * `nodecpp::js::JSVar`: a tagged union with the tags undefined, boolean,
 * number, string, owning pointer, soft pointer and function. Numbers are
 * kept abstract as reals; a pointer is the reference of the object it
 * designates. No constructor ever produces the function tag; `Fn` stands
 * for a variable whose tag is `fn`.
 *
 * The source stops with a critical assertion whenever `deinit`, `init`,
 * `toString` or indexing meets a tag it does not handle; that outcome is
 * `Failure(UnexpectedType)` here.
 */
module JsValue {
  import opened Wrappers

  type Ref = nat

  datatype Tag = UndefTag | BooleanTag | NumTag | StringTag | OwnPtrTag | SoftPtrTag | FnTag

  datatype JSVar =
    | Undef
    | Boolean(b: bool)
    | Num(n: real)
    | Str(s: string)
    | OwnPtr(own: Ref)
    | SoftPtr(soft: Ref)
    | Fn

  /** How an operation of the value layer can fail. */
  datatype JsError =
    | UnexpectedType     // critical assertion on an unhandled tag
    | OutOfRange         // `std::out_of_range` from `substr`
    | NullDeref          // a pointer that designates no live object
    | AlreadyRegistered  // critical assertion in the module registry

  function TagOf(v: JSVar): Tag
  {
    match v
    case Undef => UndefTag
    case Boolean(_) => BooleanTag
    case Num(_) => NumTag
    case Str(_) => StringTag
    case OwnPtr(_) => OwnPtrTag
    case SoftPtr(_) => SoftPtrTag
    case Fn => FnTag
  }

  predicate IsPointer(v: JSVar)
  {
    v.OwnPtr? || v.SoftPtr?
  }

  /** The object a pointer designates. */
  function Target(v: JSVar): Ref
    requires IsPointer(v)
  {
    if v.OwnPtr? then v.own else v.soft
  }

  /** `typeOf`: defined for every tag; both pointer tags are "object". */
  function TypeOf(v: JSVar): (r: string)
    ensures r == "object" <==> IsPointer(v)
    ensures r == "undefined" <==> v.Undef?
    ensures r == "function" <==> v.Fn?
  {
    match v
    case Undef => "undefined"
    case Boolean(_) => "boolean"
    case Num(_) => "number"
    case Str(_) => "string"
    case OwnPtr(_) => "object"
    case SoftPtr(_) => "object"
    case Fn => "function"
  }

  /** `typeOf` tells tags apart except the two pointer kinds. */
  lemma TypeOfSeparatesTags(a: JSVar, b: JSVar)
    ensures TypeOf(a) == TypeOf(b) <==> (TagOf(a) == TagOf(b) || (IsPointer(a) && IsPointer(b)))
  {
  }

  /** `deinit()`: releases the payload and leaves the tag undefined; the function tag is not handled. */
  function Deinit(v: JSVar): (r: Result<JSVar, JsError>)
    ensures r.Success? <==> !v.Fn?
    ensures r.Success? ==> r.value == Undef
    ensures r.Failure? ==> r.error == UnexpectedType
  {
    if v.Fn? then Failure(UnexpectedType) else Success(Undef)
  }

  /**
   * Copy construction `JSVar(other)`: the copy of an owning pointer is a
   * soft pointer to the same object; every other handled tag is copied
   * with its payload.
   */
  function Copy(v: JSVar): (r: Result<JSVar, JsError>)
    ensures r.Success? <==> !v.Fn?
    ensures r.Success? ==> !r.value.OwnPtr? && TypeOf(r.value) == TypeOf(v)
    ensures r.Success? && IsPointer(v) ==> IsPointer(r.value) && Target(r.value) == Target(v)
    ensures v.OwnPtr? ==> r == Success(SoftPtr(v.own))
    ensures !v.OwnPtr? && !v.Fn? ==> r == Success(v)
  {
    match v
    case OwnPtr(o) => Success(SoftPtr(o))
    case Fn => Failure(UnexpectedType)
    case _ => Success(v)
  }

  /** A copy never owns, designates what the original designates, and has the same `typeOf`. */
  lemma CopyKeepsMeaning(v: JSVar)
    requires !v.Fn?
    ensures !Copy(v).value.OwnPtr?
    ensures TypeOf(Copy(v).value) == TypeOf(v)
    ensures IsPointer(v) ==> IsPointer(Copy(v).value) && Target(Copy(v).value) == Target(v)
    ensures Copy(Copy(v).value) == Copy(v)
  {
  }

  /** The typed values `init` and the converting constructors accept. */
  datatype Payload = BoolVal(b: bool) | NumVal(n: real) | StrVal(s: string) | OwnVal(own: Ref) | SoftVal(soft: Ref)

  function PayloadTag(x: Payload): Tag
  {
    match x
    case BoolVal(_) => BooleanTag
    case NumVal(_) => NumTag
    case StrVal(_) => StringTag
    case OwnVal(_) => OwnPtrTag
    case SoftVal(_) => SoftPtrTag
  }

  /** The variable holding exactly `x`. */
  function Make(x: Payload): (v: JSVar)
    ensures TagOf(v) == PayloadTag(x)
  {
    match x
    case BoolVal(b) => Boolean(b)
    case NumVal(n) => Num(n)
    case StrVal(s) => Str(s)
    case OwnVal(r) => OwnPtr(r)
    case SoftVal(r) => SoftPtr(r)
  }

  /**
   * `init(x)` for a typed value: a variable that already has `x`'s tag is
   * overwritten in place; any other variable is first `deinit`ed.
   */
  function InitWith(dst: JSVar, x: Payload): (r: Result<JSVar, JsError>)
    ensures r.Success? <==> !dst.Fn?
    ensures r.Success? ==> TagOf(r.value) == PayloadTag(x)
  {
    if TagOf(dst) == PayloadTag(x) then Success(Make(x))
    else
      var _ :- Deinit(dst);
      Success(Make(x))
  }

  /** Neither path of `init(x)` lets the old value through: the result is `x` whatever was there. */
  lemma InitForgetsOldValue(a: JSVar, b: JSVar, x: Payload)
    requires !a.Fn? && !b.Fn?
    ensures InitWith(a, x) == InitWith(b, x) == Success(Make(x))
  {
  }

  // ---------------------------------------------------------------------
  // Assignment between variables
  // ---------------------------------------------------------------------

  /**
   * `slots[dst] = slots[src]` as written: `init(other)` runs `deinit()` on
   * the destination first and reads the source afterwards, so when both are
   * the same variable the source has already been cleared.
   */
  function AssignAsWritten(slots: seq<JSVar>, dst: nat, src: nat): (r: Result<seq<JSVar>, JsError>)
    requires dst < |slots| && src < |slots|
    ensures r.Success? <==> !slots[dst].Fn? && (dst == src || !slots[src].Fn?)
    ensures r.Failure? ==> r.error == UnexpectedType
    ensures r.Success? ==> |r.value| == |slots|
    ensures r.Success? ==> forall i :: 0 <= i < |slots| && i != dst ==> r.value[i] == slots[i]
    ensures r.Success? && dst == src ==> r.value[dst] == Undef
  {
    var cleared :- Deinit(slots[dst]);
    var slots1 := slots[dst := cleared];
    var copied :- Copy(slots1[src]);
    Success(slots1[dst := copied])
  }

  /** Self-assignment `v = v` erases `v`. */
  lemma SelfAssignErases(slots: seq<JSVar>, i: nat)
    requires i < |slots| && !slots[i].Fn?
    ensures AssignAsWritten(slots, i, i) == Success(slots[i := Undef])
  {
    var slots1 := slots[i := Undef];
    assert Deinit(slots[i]) == Success(Undef);
    assert Copy(slots1[i]) == Success(Undef);
    assert slots1[i := Undef] == slots1;
  }

  /** For example, a variable holding "a" becomes undefined after `v = v`. */
  lemma SelfAssignExample()
    ensures AssignAsWritten([Str("a")], 0, 0) == Success([Undef])
  {
    SelfAssignErases([Str("a")], 0);
    assert [Str("a")][0 := Undef] == [Undef];
  }

  /**
   * Assignment with the source read before the destination is released:
   * the destination receives the copy of the source and nothing else
   * changes.
   */
  function Assign(slots: seq<JSVar>, dst: nat, src: nat): (r: Result<seq<JSVar>, JsError>)
    requires dst < |slots| && src < |slots|
    ensures r.Success? <==> !slots[src].Fn? && !slots[dst].Fn?
    ensures r.Success? ==> r.value == slots[dst := Copy(slots[src]).value]
  {
    var copied :- Copy(slots[src]);
    var _ :- Deinit(slots[dst]);
    Success(slots[dst := copied])
  }

  /** With the source read first, `v = v` keeps `v` (turning an owner into a soft pointer, as any copy does). */
  lemma SelfAssignKeeps(slots: seq<JSVar>, i: nat)
    requires i < |slots| && !slots[i].Fn?
    ensures Assign(slots, i, i).Success?
    ensures TypeOf(Assign(slots, i, i).value[i]) == TypeOf(slots[i])
    ensures !slots[i].OwnPtr? ==> Assign(slots, i, i).value == slots
  {
    CopyKeepsMeaning(slots[i]);
  }

  /** The two agree on every assignment between distinct variables. */
  lemma AssignAgreesOnDistinct(slots: seq<JSVar>, dst: nat, src: nat)
    requires dst < |slots| && src < |slots| && dst != src
    ensures AssignAsWritten(slots, dst, src) == Assign(slots, dst, src)
  {
    if !slots[dst].Fn? && !slots[src].Fn? {
      var slots1 := slots[dst := Undef];
      assert slots1[src] == slots[src];
      var c := Copy(slots[src]).value;
      assert slots1[dst := c] == slots[dst := c];
    }
  }
}
