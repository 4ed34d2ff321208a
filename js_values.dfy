/**
 * The JavaScript values the handler reads from its request body and from the
 * provider's reply, with the few language operations it applies to them:
 * truthiness, property access, `String(v)` and `Number(v)`. Numbers are held
 * as integer cents.
 */
module JsValues {
  import opened Wrappers
  import Decimal

  datatype JsValue =
    | Undefined
    | Null
    | Bool(b: bool)
    | Num(cents: int)
    | Str(s: string)
    | Arr(items: seq<JsValue>)
    | Obj(fields: map<string, JsValue>)

  /** `null` and `undefined`: the values whose properties cannot be read. */
  predicate Nullish(v: JsValue) { v == Undefined || v == Null }

  /** JavaScript truthiness: `undefined`, `null`, `false`, `0` and `""` are falsy. */
  predicate Truthy(v: JsValue)
  {
    match v
    case Undefined => false
    case Null => false
    case Bool(b) => b
    case Num(c) => c != 0
    case Str(s) => s != ""
    case Arr(_) => true
    case Obj(_) => true
  }

  /** A property name, or an array index written `x[i]`. */
  datatype Key = Name(name: string) | Index(index: nat)

  /**
   * `v.k` / `v[i]`: None stands for the TypeError thrown when `v` is null or
   * undefined; a property the value does not have reads as `undefined`.
   */
  function Get(v: JsValue, k: Key): (r: Option<JsValue>)
    ensures r.None? <==> Nullish(v)
    ensures v.Obj? && k.Name? && k.name in v.fields ==> r == Some(v.fields[k.name])
    ensures v.Obj? && k.Name? && k.name !in v.fields ==> r == Some(Undefined)
    ensures v.Arr? && k.Index? && k.index < |v.items| ==> r == Some(v.items[k.index])
  {
    match v
    case Undefined => None
    case Null => None
    case Obj(fields) =>
      var name := if k.Name? then k.name else Decimal.NatText(k.index);
      Some(if name in fields then fields[name] else Undefined)
    case Arr(items) =>
      Some(if k.Index? && k.index < |items| then items[k.index] else Undefined)
    case Str(s) =>
      Some(if k.Index? && k.index < |s| then Str([s[k.index]]) else Undefined)
    case _ => Some(Undefined)
  }

  /** `String(v)`, as a template literal `${v}` converts its operands. */
  function ToStr(v: JsValue): string
    decreases v, 1
  {
    match v
    case Undefined => "undefined"
    case Null => "null"
    case Bool(b) => if b then "true" else "false"
    case Num(c) => Decimal.NumberText(c)
    case Str(s) => s
    case Arr(items) => JoinFrom(v, 0)
    case Obj(_) => "[object Object]"
  }

  /** `Array.prototype.join(",")` on the elements from `i` on; null and undefined elements print as "". */
  function JoinFrom(v: JsValue, i: nat): string
    requires v.Arr?
    decreases v, 0, |v.items| - i
  {
    if i >= |v.items| then ""
    else
      var e := v.items[i];
      var text := if Nullish(e) then "" else ToStr(e);
      if i == |v.items| - 1 then text else text + "," + JoinFrom(v, i + 1)
  }

  /** `Number(v)` in cents; None is NaN. Arrays and objects convert through their string form. */
  function ToNumber(v: JsValue): (r: Option<int>)
    ensures v == Undefined ==> r.None?
    ensures v.Num? ==> r == Some(v.cents)
    ensures v.Arr? && |v.items| == 1 && v.items[0].Num? ==> r == Some(v.items[0].cents)
    ensures v.Obj? ==> r.None?
  {
    match v
    case Undefined => None
    case Null => Some(0)
    case Bool(b) => Some(if b then 100 else 0)
    case Num(c) => Some(c)
    case Str(s) => Decimal.ParseCents(s)
    case Arr(items) =>
      SingleNumberText(v);
      Decimal.ParseCents(ToStr(v))
    case Obj(_) =>
      Decimal.NotNumberText("[object Object]");
      Decimal.ParseCents(ToStr(v))
  }

  /** An array holding one number prints as that number, so it reads back as it. */
  lemma SingleNumberText(v: JsValue)
    requires v.Arr?
    ensures |v.items| == 1 && v.items[0].Num? ==> Decimal.ParseCents(ToStr(v)) == Some(v.items[0].cents)
  {
    if |v.items| == 1 && v.items[0].Num? {
      Decimal.NumberTextRoundTrip(v.items[0].cents);
      assert ToStr(v) == ToStr(v.items[0]);
    }
  }

  /** Converting a number to text and back loses nothing, also inside a one-element array. */
  lemma NumberStringRoundTrip(c: int)
    ensures ToNumber(Str(ToStr(Num(c)))) == Some(c)
    ensures ToNumber(Arr([Num(c)])) == Some(c)
  {
    Decimal.NumberTextRoundTrip(c);
    assert ToStr(Arr([Num(c)])) == ToStr(Num(c));
  }

  /** The coercions of the values that are neither numbers nor numeric text. */
  lemma CoercionEdgeCases()
    ensures ToNumber(Arr([])) == Some(0)
    ensures ToNumber(Obj(map[])) == None
    ensures ToNumber(Str("abc")) == None
    ensures ToNumber(Str("")) == Some(0)
  {
    Decimal.SampleReadings();
    assert ToStr(Arr([])) == "";
    Decimal.NotNumberText("[object Object]");
  }
}
