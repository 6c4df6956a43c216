/** JSON values as the Python services see them, and Python's equality on them. */
module Values {

  datatype Option<+T> = None | Some(value: T)

  /** A JSON value. Lists and objects are opaque here: two of them are equal
      exactly when their canonical text is. */
  datatype Val =
    | Null
    | Bool(b: bool)
    | Int(n: int)
    | Num(r: real)
    | Str(s: string)
    | Structure(json: string)

  /** Keyword arguments of a tool call: a Python dict with string keys. */
  type Args = map<string, Val>

  /** How text and numbers convert into each other. The conversions themselves are
      arbitrary; every theorem holds for all of them. */
  datatype TextRules = TextRules(
    show: Val -> string,
    parseFloat: string -> Option<real>,
    parseInt: string -> Option<int>)

  /** `str(value)`: the identity on strings. */
  function Show(rules: TextRules, v: Val): string {
    if v.Str? then v.s else rules.show(v)
  }

  /** The number a value counts as in a Python comparison (`True == 1 == 1.0`). */
  function AsNumber(v: Val): Option<real> {
    match v
    case Bool(b) => Some(if b then 1.0 else 0.0)
    case Int(n) => Some(n as real)
    case Num(r) => Some(r)
    case _ => None
  }

  /** Python's `==` on values. */
  predicate PyEq(a: Val, b: Val) {
    if AsNumber(a).Some? && AsNumber(b).Some?
    then AsNumber(a) == AsNumber(b)
    else a == b
  }

  /** Numbers are equal by value, booleans among them; everything else only to itself. */
  lemma PyEqIff(a: Val, b: Val)
    ensures PyEq(a, b) <==> a == b || (AsNumber(a).Some? && AsNumber(a) == AsNumber(b))
    ensures PyEq(Bool(true), Int(1)) && PyEq(Int(1), Num(1.0)) && PyEq(Bool(false), Num(0.0))
    ensures !PyEq(Int(1), Str("1")) && !PyEq(Int(0), Null) && !PyEq(Null, Str(""))
  {
  }

  /** Python's `==` on argument dictionaries. */
  predicate ArgsEq(a: Args, b: Args) {
    a.Keys == b.Keys && forall k | k in a :: PyEq(a[k], b[k])
  }

  lemma ArgsEqIsAnEquivalence(a: Args, b: Args, c: Args)
    ensures ArgsEq(a, a)
    ensures ArgsEq(a, b) ==> ArgsEq(b, a)
    ensures ArgsEq(a, b) && ArgsEq(b, c) ==> ArgsEq(a, c)
  {
  }

  /** `args.get(name)`. */
  function Get(args: Args, name: string): Val {
    if name in args then args[name] else Null
  }

  /** `value in (None, "")`. */
  predicate Blank(v: Val) {
    v == Null || v == Str("")
  }

  /** Python truthiness. */
  predicate Truthy(v: Val) {
    match v
    case Null => false
    case Bool(b) => b
    case Int(n) => n != 0
    case Num(r) => r != 0.0
    case Str(s) => s != ""
    case Structure(j) => j != "[]" && j != "{}"
  }

  /** What is false: nothing, zero of any kind, and what is empty. */
  lemma TruthyIff(v: Val)
    ensures !Truthy(v) <==> v == Null || PyEq(v, Int(0)) || v in {Str(""), Structure("[]"), Structure("{}")}
    ensures Blank(v) ==> !Truthy(v)
  {
  }
}
