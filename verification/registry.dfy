/**
 * `JSModuleMap` and `require<T>()`: a per-thread map from a module class's
 * type to the one instance of it, created on the first `require` and
 * handed out by every later one.
 */
module JsRegistry {
  import opened Wrappers
  import opened JsValue

  /** The `std::type_index` of a module class. */
  type TypeKey = string

  /** A module instance, as the object `make_owning<T>()` allocated for it. */
  type Instance = nat

  datatype Registry = Registry(modules: map<TypeKey, Instance>)

  /** `getJsModuleExported<T>()`: the registered instance, if any. */
  function GetExported(reg: Registry, t: TypeKey): (r: Option<Instance>)
    ensures r.Some? <==> t in reg.modules
    ensures r.Some? ==> r.value == reg.modules[t]
  {
    if t in reg.modules then Some(reg.modules[t]) else None
  }

  /**
   * `addJsModuleExported<T>(p)`: registers `p` for `t`; when `t` is already
   * registered the map refuses the insertion and the critical assertion
   * stops the program.
   */
  function AddExported(reg: Registry, t: TypeKey, p: Instance): (r: Result<(Registry, Instance), JsError>)
    ensures r.Success? <==> t !in reg.modules
    ensures r.Success? ==> r.value.0.modules == reg.modules[t := p] && r.value.1 == p
    ensures r.Failure? ==> r.error == AlreadyRegistered
    ensures r.Success? ==> GetExported(r.value.0, t) == Some(p)
    ensures r.Success? ==> forall u :: u != t ==> GetExported(r.value.0, u) == GetExported(reg, u)
  {
    if t in reg.modules then Failure(AlreadyRegistered)
    else Success((Registry(reg.modules[t := p]), p))
  }

  /**
   * `require<T>()`: the registered instance when there is one; otherwise
   * `p`, the instance just made, is registered and returned.
   */
  function Require(reg: Registry, t: TypeKey, p: Instance): (r: Result<(Registry, Instance), JsError>)
    ensures r.Success?
    ensures t in r.value.0.modules && r.value.1 == r.value.0.modules[t]
    ensures t in reg.modules ==> r.value == (reg, reg.modules[t])
    ensures t !in reg.modules ==> r.value.0.modules == reg.modules[t := p] && r.value.1 == p
  {
    match GetExported(reg, t)
    case Some(m) => Success((reg, m))
    case None => AddExported(reg, t, p)
  }

  /** A second `require` of the same type returns the first one's instance and changes nothing. */
  lemma RequireIdempotent(reg: Registry, t: TypeKey, p: Instance, p': Instance)
    ensures var first := Require(reg, t, p).value;
            Require(first.0, t, p') == Success(first)
  {
  }

  /** A series of `require` calls, each with the instance it would make: the registry after, and every result. */
  function RequireAll(reg: Registry, calls: seq<(TypeKey, Instance)>): (r: (Registry, seq<Instance>))
    ensures |r.1| == |calls|
    decreases |calls|
  {
    if |calls| == 0 then (reg, [])
    else
      var first := Require(reg, calls[0].0, calls[0].1).value;
      var rest := RequireAll(first.0, calls[1..]);
      (rest.0, [first.1] + rest.1)
  }

  /** Registered entries are never replaced, and every required type ends up registered. */
  lemma {:induction false} RequireAllKeeps(reg: Registry, calls: seq<(TypeKey, Instance)>)
    ensures var after := RequireAll(reg, calls).0;
            && (forall t :: t in reg.modules ==> t in after.modules && after.modules[t] == reg.modules[t])
            && (forall i :: 0 <= i < |calls| ==> calls[i].0 in after.modules)
    decreases |calls|
  {
    if |calls| > 0 {
      var first := Require(reg, calls[0].0, calls[0].1).value;
      RequireAllKeeps(first.0, calls[1..]);
      var after := RequireAll(reg, calls).0;
      forall i | 0 <= i < |calls|
        ensures calls[i].0 in after.modules
      {
        if i > 0 {
          assert calls[i] == calls[1..][i - 1];
        }
      }
    }
  }

  /**
   * Every `require` in a series returns the instance the registry holds at
   * the end for that type: so all `require`s of one type return the same
   * instance.
   */
  lemma {:induction false} RequireAllSameInstance(reg: Registry, calls: seq<(TypeKey, Instance)>)
    ensures var r := RequireAll(reg, calls);
            forall i :: 0 <= i < |calls| ==> calls[i].0 in r.0.modules && r.1[i] == r.0.modules[calls[i].0]
    decreases |calls|
  {
    if |calls| > 0 {
      var first := Require(reg, calls[0].0, calls[0].1).value;
      RequireAllSameInstance(first.0, calls[1..]);
      RequireAllKeeps(first.0, calls[1..]);
      var r := RequireAll(reg, calls);
      forall i | 0 <= i < |calls|
        ensures calls[i].0 in r.0.modules && r.1[i] == r.0.modules[calls[i].0]
      {
        if i > 0 {
          assert calls[i] == calls[1..][i - 1];
        }
      }
    }
  }

  lemma RequireAllConsistent(reg: Registry, calls: seq<(TypeKey, Instance)>, i: nat, j: nat)
    requires i < |calls| && j < |calls| && calls[i].0 == calls[j].0
    ensures RequireAll(reg, calls).1[i] == RequireAll(reg, calls).1[j]
  {
    RequireAllSameInstance(reg, calls);
  }
}
