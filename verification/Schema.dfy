/** Coercion of tool arguments to the types their schema declares
    (app/common/schema.py). */
module Schema {
  import opened Values
  import opened Ascii

  /** The `type` of a declared property; `Untyped` is any type the coercion ignores. */
  datatype JsonType = Number | Integer | Boolean | Text | Untyped

  type Properties = map<string, JsonType>

  /** Python's `int(x)` on a float: truncation toward zero. */
  function Truncate(r: real): int {
    if r < 0.0 then -((-r).Floor) else r.Floor
  }

  /** One value, coerced. A number that cannot be read becomes null, never the raw value. */
  function Coerce(rules: TextRules, v: Val, t: JsonType): Val {
    if v == Null then Null else
    match t
    case Number =>
      (match v
       case Bool(_) => Num(AsNumber(v).value)
       case Int(_) => Num(AsNumber(v).value)
       case Num(_) => v
       case Str(s) =>
         (match rules.parseFloat(s)
          case Some(r) => Num(r)
          case None => Null)
       case Structure(_) => Null)
    case Integer =>
      (match v
       case Bool(b) => Int(if b then 1 else 0)
       case Int(_) => v
       case Num(r) => Int(Truncate(r))
       case Str(s) =>
         (match rules.parseInt(s)
          case Some(n) => Int(n)
          case None => Null)
       case Structure(_) => Null)
    case Boolean => if v.Bool? then v else Bool(Lower(Strip(Show(rules, v))) in {"true", "1", "yes"})
    case Text => Str(Show(rules, v))
    case Untyped => v
  }

  /** Whether a text says yes: one of three words, in any case, between white space. */
  predicate SaysTrue(s: string) {
    exists i, j :: 0 <= i <= j <= |s| && IsCore(s, i, j) && Lower(s[i..j]) in {"true", "1", "yes"}
  }

  /** Policy is handed a value of the declared type, or nothing. A number is the number that
      the value counts as or reads as; an integer is that number without its fraction; what
      cannot be read is null, never the raw value. */
  lemma CoerceIff(rules: TextRules, v: Val, t: JsonType)
    ensures v == Null ==> Coerce(rules, v, t) == Null
    ensures v != Null ==>
            var c := Coerce(rules, v, t);
            match t
            case Number =>
              && (c == Null || c.Num?)
              && (AsNumber(v).Some? ==> PyEq(c, v))
              && (v.Str? ==> if rules.parseFloat(v.s).Some? then c == Num(rules.parseFloat(v.s).value) else c == Null)
              && (v.Structure? ==> c == Null)
            case Integer =>
              && (c == Null || c.Int?)
              && (v.Bool? || v.Int? ==> PyEq(c, v))
              && (v.Num? ==> c.Int? && WithoutFraction(v.r, c.n))
              && (v.Str? ==> if rules.parseInt(v.s).Some? then c == Int(rules.parseInt(v.s).value) else c == Null)
              && (v.Structure? ==> c == Null)
            case Boolean => c.Bool? && (c.b <==> if v.Bool? then v.b else SaysTrue(Show(rules, v)))
            case Text => c == Str(if v.Str? then v.s else rules.show(v))
            case Untyped => c == v
  {
    SaysTrueIff(Show(rules, v));
  }

  lemma SaysTrueIff(s: string)
    ensures SaysTrue(s) <==> Lower(Strip(s)) in {"true", "1", "yes"}
  {
    var i, j := StripIsTheCore(s);
    if SaysTrue(s) {
      var k, l :| 0 <= k <= l <= |s| && IsCore(s, k, l) && Lower(s[k..l]) in {"true", "1", "yes"};
      CoreIsUnique(s, i, j, k, l);
    }
  }

  /** `n` is `r` rounded toward zero. */
  predicate WithoutFraction(r: real, n: int) {
    if r >= 0.0 then n as real <= r < n as real + 1.0 else n as real - 1.0 < r <= n as real
  }

  /** The whole dictionary, as one expression: declared keys only, each coerced. */
  function Coerced(rules: TextRules, properties: Properties, args: Args): Args {
    map k | k in args && k in properties :: Coerce(rules, args[k], properties[k])
  }

  /** The loop of `coerce_args`. */
  method CoerceArgs(rules: TextRules, properties: Properties, args: Args) returns (out: Args)
    ensures out == Coerced(rules, properties, args)
  {
    out := map[];
    var todo := args.Keys;
    while todo != {}
      invariant todo <= args.Keys
      invariant out == Coerced(rules, properties, map k | k in args && k !in todo :: args[k])
      decreases todo
    {
      var key :| key in todo;
      todo := todo - {key};
      if key in properties {
        out := out[key := Coerce(rules, args[key], properties[key])];
      }
    }
    assert args == map k | k in args && k !in todo :: args[k];
  }

  /** Coercing twice is coercing once, and what survives is exactly the declared keys:
      an undeclared `approval_id` never reaches the policy, the approval or the handler. */
  lemma CoercionIsIdempotent(rules: TextRules, properties: Properties, args: Args)
    ensures Coerced(rules, properties, Coerced(rules, properties, args)) == Coerced(rules, properties, args)
    ensures Coerced(rules, properties, args).Keys == args.Keys * properties.Keys
  {
    var once := Coerced(rules, properties, args);
    var twice := Coerced(rules, properties, once);
    assert twice.Keys == once.Keys;
    forall k | k in once
      ensures twice[k] == once[k]
    {
      CoerceIsIdempotent(rules, args[k], properties[k]);
    }
  }

  lemma CoerceIsIdempotent(rules: TextRules, v: Val, t: JsonType)
    ensures Coerce(rules, Coerce(rules, v, t), t) == Coerce(rules, v, t)
  {
  }

  /** A key the schema does not declare makes no difference to the coerced call. */
  lemma UndeclaredKeyIsDropped(rules: TextRules, properties: Properties, args: Args, key: string, v: Val)
    requires key !in properties
    ensures Coerced(rules, properties, args[key := v]) == Coerced(rules, properties, args)
  {
    var a := Coerced(rules, properties, args[key := v]);
    var b := Coerced(rules, properties, args);
    assert a.Keys == b.Keys;
  }
}
