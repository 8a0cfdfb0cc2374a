/**
 * JSON-like values as the engine sees them after `json.loads`: Python
 * dictionaries are ordered key/value lists (keys assumed distinct, as in a
 * dict), and Python's None and JSON null are the same value.
 */
module Json {
  import opened Wrappers

  datatype Value =
    | Null
    | Bool(b: bool)
    | Num(n: int)
    | Str(s: string)
    | Arr(items: seq<Value>)
    | Obj(fields: seq<Field>)

  datatype Field = Field(key: string, val: Value)

  /** Python truthiness: None, False, 0, "", [] and {} are falsy. */
  predicate Truthy(v: Value) {
    match v
    case Null => false
    case Bool(b) => b
    case Num(n) => n != 0
    case Str(s) => s != ""
    case Arr(items) => items != []
    case Obj(fields) => fields != []
  }

  /** `a or b`: the first operand when it is truthy, the second otherwise. */
  function Or(a: Value, b: Value): (r: Value)
    ensures Truthy(r) <==> Truthy(a) || Truthy(b)
    ensures Truthy(a) ==> r == a
  {
    if Truthy(a) then a else b
  }

  predicate HasKey(fields: seq<Field>, key: string) {
    exists i :: 0 <= i < |fields| && fields[i].key == key
  }

  /** The value stored under `key` (the first such field). */
  function Lookup(fields: seq<Field>, key: string): (r: Option<Value>)
    ensures r.Some? <==> HasKey(fields, key)
    ensures r.Some? ==> exists i :: 0 <= i < |fields| && fields[i] == Field(key, r.value)
  {
    if fields == [] then None
    else if fields[0].key == key then Some(fields[0].val)
    else
      var r := Lookup(fields[1..], key);
      assert r.Some? ==> exists i :: 0 <= i < |fields[1..]| && fields[1..][i] == Field(key, r.value);
      assert HasKey(fields[1..], key) ==> HasKey(fields, key) by {
        if HasKey(fields[1..], key) {
          var i :| 0 <= i < |fields[1..]| && fields[1..][i].key == key;
          assert fields[i + 1].key == key;
        }
      }
      r
  }

  /** `d.get(key)` on a dict: None when the key is absent. */
  function Get(fields: seq<Field>, key: string): Value {
    Lookup(fields, key).GetOr(Null)
  }

  function TypeName(v: Value): string {
    match v
    case Null => "NoneType"
    case Bool(_) => "bool"
    case Num(_) => "int"
    case Str(_) => "str"
    case Arr(_) => "list"
    case Obj(_) => "dict"
  }

  /** `v.get(key)`: only a dict has `get`; anything else raises AttributeError. */
  function DictGet(v: Value, key: string): (r: Result<Value>)
    ensures r.Ok? <==> v.Obj?
  {
    if v.Obj? then Ok(Get(v.fields, key))
    else Err("'" + TypeName(v) + "' object has no attribute 'get'")
  }

  /** `v[key]` with a string key: KeyError on a dict without it, TypeError on other values. */
  function Index(v: Value, key: string): (r: Result<Value>)
    ensures r.Ok? <==> v.Obj? && HasKey(v.fields, key)
    ensures r.Ok? ==> Lookup(v.fields, key) == Some(r.value)
  {
    match v
    case Obj(fields) =>
      if HasKey(fields, key) then Ok(Lookup(fields, key).value) else Err("'" + key + "'")
    case Arr(_) => Err("list indices must be integers or slices, not str")
    case Str(_) => Err("string indices must be integers")
    case _ => Err("'" + TypeName(v) + "' object is not subscriptable")
  }

  function Keys(fields: seq<Field>): (r: seq<string>)
    ensures |r| == |fields|
    ensures forall i :: 0 <= i < |fields| ==> r[i] == fields[i].key
  {
    if fields == [] then [] else [fields[0].key] + Keys(fields[1..])
  }

  /** `list(d.values())` */
  function Values(fields: seq<Field>): (r: seq<Value>)
    ensures |r| == |fields|
    ensures forall i :: 0 <= i < |fields| ==> r[i] == fields[i].val
  {
    if fields == [] then [] else [fields[0].val] + Values(fields[1..])
  }

  // ---------------------------------------------------------------------------
  // Decimal rendering of integers, as Python's str(int)

  predicate IsDigit(c: char) {
    '0' <= c <= '9'
  }

  predicate AllDigits(s: string) {
    forall i :: 0 <= i < |s| ==> IsDigit(s[i])
  }

  function DigitChar(d: nat): char
    requires d < 10
  {
    ['0', '1', '2', '3', '4', '5', '6', '7', '8', '9'][d]
  }

  function DigitValue(c: char): nat
    requires IsDigit(c)
  {
    (c as int - '0' as int) as nat
  }

  function NatToString(n: nat): string
    decreases n
  {
    if n < 10 then [DigitChar(n)] else NatToString(n / 10) + [DigitChar(n % 10)]
  }

  /** The value of a string of decimal digits. */
  function ParseDigits(s: string): nat
    requires AllDigits(s)
  {
    if s == [] then 0 else 10 * ParseDigits(s[..|s| - 1]) + DigitValue(s[|s| - 1])
  }

  /** Python's str(n) is a non-empty run of digits without a superfluous leading zero,
      and reading it back gives n. */
  lemma {:induction false} NatToStringRoundTrip(n: nat)
    ensures var s := NatToString(n);
      && s != [] && AllDigits(s)
      && (s[0] == '0' ==> n == 0)
      && ParseDigits(s) == n
    decreases n
  {
    var s := NatToString(n);
    if n >= 10 {
      NatToStringRoundTrip(n / 10);
      var p := NatToString(n / 10);
      assert s == p + [DigitChar(n % 10)];
      assert s[..|s| - 1] == p;
      assert s[0] == p[0];
    }
  }

  lemma NatToStringInjective(m: nat, n: nat)
    requires NatToString(m) == NatToString(n)
    ensures m == n
  {
    NatToStringRoundTrip(m);
    NatToStringRoundTrip(n);
  }

  function IntToString(i: int): string {
    if i < 0 then "-" + NatToString(-i) else NatToString(i)
  }

  // ---------------------------------------------------------------------------
  // Python's str() and repr() of values

  /** `str(v)`: a string is itself, everything else is its repr. */
  function StrForm(v: Value): string {
    if v.Str? then v.s else ReprForm(v)
  }

  /** `repr(v)`; strings are quoted with single quotes and not escaped. */
  function ReprForm(v: Value): string {
    match v
    case Null => "None"
    case Bool(b) => if b then "True" else "False"
    case Num(n) => IntToString(n)
    case Str(s) => "'" + s + "'"
    case Arr(items) => "[" + ReprItems(items) + "]"
    case Obj(fields) => "{" + ReprFields(fields) + "}"
  }

  function ReprItems(items: seq<Value>): string {
    if items == [] then ""
    else if |items| == 1 then ReprForm(items[0])
    else ReprForm(items[0]) + ", " + ReprItems(items[1..])
  }

  function ReprFields(fields: seq<Field>): string {
    if fields == [] then ""
    else
      var head := "'" + fields[0].key + "': " + ReprForm(fields[0].val);
      if |fields| == 1 then head else head + ", " + ReprFields(fields[1..])
  }

  /** str() of a container is never empty, so such a value never becomes falsy by printing it. */
  lemma StrFormOfContainer(v: Value)
    requires v.Arr? || v.Obj?
    ensures |StrForm(v)| >= 2 && Truthy(Str(StrForm(v)))
  {
  }
}
