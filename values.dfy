/**
 * Python values as the prepare action's plugins and modules handle them:
 * what YAML and JSON loading produce (dicts, lists, strings, booleans,
 * integers, None), the exceptions Python's operators raise on them, and
 * those operators written out for each kind of value.
 */
module Values {
  import opened Common

  /** A loaded YAML or JSON value. Dict keys are strings; the insertion
      order of a Python dict is not kept. */
  datatype Value =
    | Dict(entries: map<string, Value>)
    | List(items: seq<Value>)
    | Str(s: string)
    | Bool(b: bool)
    | Int(i: int)
    | Nil

  /** The exceptions the modelled code can raise. */
  datatype Raise = KeyError | TypeError | AttributeError | IndexError | ValueError

  /** A Python expression's result: a value, or the exception it raised. */
  datatype Attempt<T> = Done(value: T) | Threw(error: Raise)

  /** Python's truth value: empty containers, the empty string, zero,
      False and None are false. */
  predicate Truthy(v: Value)
  {
    match v
    case Dict(m) => |m| > 0
    case List(items) => |items| > 0
    case Str(s) => |s| > 0
    case Bool(b) => b
    case Int(i) => i != 0
    case Nil => false
  }

  /** `x in container` for a string `x`: a key of a dict, a substring of a
      string, an element of a list; anything else is not iterable. */
  function In(x: string, container: Value): (r: Attempt<bool>)
    ensures r.Threw? <==> container.Bool? || container.Int? || container.Nil?
    ensures r.Threw? ==> r.error == TypeError
    ensures container.Dict? ==> r == Done(x in container.entries)
    ensures container.List? ==> r == Done(Str(x) in container.items)
  {
    match container
    case Dict(m) => Done(x in m)
    case Str(s) => Done(Contains(s, x))
    case List(items) => Done(Str(x) in items)
    case _ => Threw(TypeError)
  }

  /** `container[x]` for a string key: a dict's entry or KeyError; strings
      and lists take only integer indices, and nothing else is
      subscriptable. */
  function Subscript(container: Value, x: string): (r: Attempt<Value>)
    ensures r.Done? <==> container.Dict? && x in container.entries
    ensures r.Done? ==> r.value == container.entries[x]
    ensures r.Threw? ==> r.error == (if container.Dict? then KeyError else TypeError)
  {
    match container
    case Dict(m) => if x in m then Done(m[x]) else Threw(KeyError)
    case _ => Threw(TypeError)
  }

  /** `value.get(x)`: the entry or None on a dict; nothing else has
      `.get`. */
  function Get(value: Value, x: string): (r: Attempt<Value>)
    ensures r.Done? <==> value.Dict?
    ensures r.Threw? ==> r.error == AttributeError
    ensures value.Dict? ==> r.value == if x in value.entries then value.entries[x] else Nil
  {
    match value
    case Dict(m) => Done(if x in m then m[x] else Nil)
    case _ => Threw(AttributeError)
  }

  /** `value[x] if x in value else None`: the guarded read the filters
      use. Where `in` holds on a string or a list the subscript raises. */
  function Field(value: Value, x: string): (r: Attempt<Value>)
    ensures value.Dict? ==> r == Done(if x in value.entries then value.entries[x] else Nil)
    ensures value.Nil? ==> r == Threw(TypeError)
  {
    match In(x, value)
    case Threw(e) => Threw(e)
    case Done(present) => if present then Subscript(value, x) else Done(Nil)
  }

  /** A list of strings as a loaded value holds them. */
  function Strs(xs: seq<string>): (r: seq<Value>)
    ensures |r| == |xs| && forall i :: 0 <= i < |xs| ==> r[i] == Str(xs[i])
  {
    seq(|xs|, i requires 0 <= i < |xs| => Str(xs[i]))
  }
}
