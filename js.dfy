/** JavaScript values as the toolkit sees them: context entries, event
    payloads and controller members. Only the distinctions the core looks at
    are kept: truthiness, strings and records with named fields. */
module Js {

  /** Handle of a node in the host element tree. */
  type NodeId = nat

  datatype Option<+T> = None | Some(value: T)

  /** A value as the core observes it. `Num` stands for a finite number
      (integers only); `Fn` is an opaque function object identified by `id`. */
  datatype Value =
    | Undefined
    | Null
    | Bool(b: bool)
    | Num(n: int)
    | Str(s: string)
    | Fn(id: nat)
    | Record(fields: map<string, Value>)

  /** JavaScript truthiness: `undefined`, `null`, `false`, `0` and `""` are falsy;
      every object and function is truthy. */
  predicate Truthy(v: Value) {
    match v
    case Undefined => false
    case Null => false
    case Bool(b) => b
    case Num(n) => n != 0
    case Str(s) => s != ""
    case Fn(_) => true
    case Record(_) => true
  }

  /** Reading property `k` of a plain object: `undefined` when absent. */
  function Field(v: Value, k: string): (r: Value)
    ensures v.Record? && k in v.fields ==> r == v.fields[k]
    ensures !(v.Record? && k in v.fields) ==> r == Undefined
  {
    if v.Record? && k in v.fields then v.fields[k] else Undefined
  }

  /** Errors the core raises or lets escape; they reject the component's promise. */
  datatype Error =
    | TypeError(what: string)     // dereferencing `undefined`
    | NotSupported(what: string)  // a DOM operation the host refuses
    | HierarchyRequest            // inserting a node under itself or its descendant
    | NoRoute                     // `new Error("no route")` in the router
    | Raised(reason: Value)       // what a function handed to the core throws or rejects with

  datatype Result<+T> = Ok(value: T) | Err(error: Error)

  /** Every occurrence of `x` removed from `s`, the rest in order: what
      removing a listener or a child node does to the host's list. */
  function Without(s: seq<nat>, x: nat): (r: seq<nat>)
    ensures forall y :: y in r <==> y in s && y != x
    ensures |r| <= |s|
  {
    if s == [] then [] else (if s[0] == x then [] else [s[0]]) + Without(s[1..], x)
  }

  /** Removing something that is not there changes nothing. */
  lemma {:induction false} WithoutAbsent(s: seq<nat>, x: nat)
    requires x !in s
    ensures Without(s, x) == s
    decreases |s|
  {
    if s != [] {
      WithoutAbsent(s[1..], x);
      assert [s[0]] + s[1..] == s;
    }
  }
}
