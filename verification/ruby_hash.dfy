/**
 Ruby values and the few `Hash` operations the parameter parser relies on:
 lookup with `nil` default, truthiness, `except` and ActiveSupport's
 `reverse_merge`. A Ruby `Hash` is modelled as a Dafny `map`; Ruby compares
 hashes without regard to key order, so the insertion order is not kept.
 */
module RubyHash {

  /** A JSON-like value as found in a decoded request or attribute hash. */
  datatype Value =
    | Nil
    | Bool(b: bool)
    | Int(i: int)
    | Str(s: string)
    | List(items: seq<Value>)
    | Dict(entries: map<string, Value>)

  /** Hash keys are Ruby symbols, represented by their names. */
  type Key = string

  type Hash = map<Key, Value>

  /** Ruby truthiness: only `nil` and `false` are falsy. */
  function Truthy(v: Value): (b: bool)
    ensures v == Nil || v == Bool(false) ==> !b
    ensures v == Bool(true) || v.Int? || v.Str? || v.List? || v.Dict? ==> b
  {
    match v
    case Nil => false
    case Bool(b) => b
    case _ => true
  }

  /** `hash[key]`: the stored value, or `nil` when the key is absent. */
  function Get(h: Hash, k: Key): (v: Value)
    ensures k in h ==> v == h[k]
    ensures k !in h ==> v == Nil
  {
    if k in h then h[k] else Nil
  }

  /** `hash.except(key)`: every entry but the one for `key`. */
  function Except(h: Hash, k: Key): (r: Hash)
    ensures k !in r
    ensures forall x :: x != k ==> (x in r <==> x in h)
    ensures forall x :: x in r ==> r[x] == h[x]
  {
    map x | x in h && x != k :: h[x]
  }

  /**
   `hash.reverse_merge(defaults)`: `defaults` merged with `hash`, where the
   entries already in `hash` win.
   */
  function ReverseMerge(h: Hash, defaults: Hash): (r: Hash)
    ensures r.Keys == h.Keys + defaults.Keys
    ensures forall x :: x in h ==> r[x] == h[x]
    ensures forall x :: x in defaults && x !in h ==> r[x] == defaults[x]
  {
    defaults + h
  }
}
