/** The JavaScript values the pages receive from the server and keep in
    component state, with the coercions the pages apply to them: truthiness,
    `String(v)`, `Array.isArray` and `arr.join(sep)`. Numbers are integers
    here; fractional numbers do not occur in the modelled logic. */
module Js {
  import opened Text

  datatype Option<T> = None | Some(value: T)

  datatype Value =
    | Undefined
    | Null
    | Bool(b: bool)
    | Num(n: int)
    | Str(s: string)
    | Arr(items: seq<Value>)
    | Obj(fields: map<string, Value>)

  /** `!!v`: only `undefined`, `null`, `false`, `0` and `""` are falsy. */
  predicate Truthy(v: Value)
  {
    match v
    case Undefined => false
    case Null => false
    case Bool(b) => b
    case Num(n) => n != 0
    case Str(s) => s != ""
    case Arr(_) => true
    case Obj(_) => true
  }

  /** `a || b` */
  function Or(a: Value, b: Value): (r: Value)
    ensures Truthy(a) ==> r == a
    ensures !Truthy(a) ==> r == b
    ensures Truthy(r) <==> Truthy(a) || Truthy(b)
  {
    if Truthy(a) then a else b
  }

  /** A missing property reads as `undefined`. */
  function Get(o: map<string, Value>, key: string): (r: Value)
    ensures key !in o ==> r == Undefined
    ensures key in o ==> r == o[key]
  {
    if key in o then o[key] else Undefined
  }

  /** `obj.key` on any value: only objects have named properties here. */
  function Prop(v: Value, key: string): (r: Value)
    ensures !v.Obj? ==> r == Undefined
  {
    if v.Obj? then Get(v.fields, key) else Undefined
  }

  function DigitChar(d: nat): (c: char)
    requires d < 10
    ensures '0' <= c <= '9'
  {
    ('0' as int + d) as char
  }

  /** The decimal numeral of a natural number, without leading zeros. */
  function NatToDecimal(n: nat): (r: string)
    ensures |r| >= 1
    ensures forall i :: 0 <= i < |r| ==> '0' <= r[i] <= '9'
    ensures n > 0 ==> r[0] != '0'
  {
    if n < 10 then [DigitChar(n)] else NatToDecimal(n / 10) + [DigitChar(n % 10)]
  }

  /** `String(v)`. Inside an array `null` and `undefined` print as "". */
  function ToString(v: Value): (r: string)
    decreases v
  {
    match v
    case Undefined => "undefined"
    case Null => "null"
    case Bool(b) => if b then "true" else "false"
    case Num(n) => if n < 0 then "-" + NatToDecimal(-n) else NatToDecimal(n)
    case Str(s) => s
    case Arr(items) =>
      Join(seq(|items|, i requires 0 <= i < |items| =>
        if items[i].Undefined? || items[i].Null? then "" else ToString(items[i])), ",")
    case Obj(_) => "[object Object]"
  }

  /** `items.join(sep)` */
  function JoinValues(items: seq<Value>, sep: string): (r: string)
    ensures (forall i :: 0 <= i < |items| ==> items[i].Str?) ==> r == Join(Strings(items), sep)
  {
    var parts := seq(|items|, i requires 0 <= i < |items| =>
      if items[i].Undefined? || items[i].Null? then "" else ToString(items[i]));
    assert (forall i :: 0 <= i < |items| ==> items[i].Str?) ==> parts == Strings(items);
    Join(parts, sep)
  }

  /** The strings of a sequence of values known to be strings. */
  function Strings(items: seq<Value>): (r: seq<string>)
    requires forall i :: 0 <= i < |items| ==> items[i].Str?
    ensures |r| == |items|
    ensures forall i :: 0 <= i < |items| ==> items[i] == Str(r[i])
  {
    seq(|items|, i requires 0 <= i < |items| => items[i].s)
  }

  /** Strings wrapped as values. */
  function Strs(xs: seq<string>): (r: seq<Value>)
    ensures |r| == |xs|
    ensures forall i :: 0 <= i < |xs| ==> r[i] == Str(xs[i])
  {
    seq(|xs|, i requires 0 <= i < |xs| => Str(xs[i]))
  }

  /** Wrapping and unwrapping strings are inverse. */
  lemma StringsStrs(xs: seq<string>)
    ensures Strings(Strs(xs)) == xs
  {
  }

  /** `Array.isArray(v) ? v : []` */
  function ArrayOrEmpty(v: Value): (r: seq<Value>)
    ensures v.Arr? ==> r == v.items
    ensures !v.Arr? ==> r == []
  {
    if v.Arr? then v.items else []
  }

  /** `a ?? b`: only `null` and `undefined` fall through. */
  function Coalesce(a: Value, b: Value): (r: Value)
    ensures !(a.Null? || a.Undefined?) ==> r == a
    ensures a.Null? || a.Undefined? ==> r == b
  {
    if a.Null? || a.Undefined? then b else a
  }

  /** `err?.response?.data?.message` */
  function ServerMessage(err: Value): Value
  {
    Prop(Prop(Prop(err, "response"), "data"), "message")
  }

  /** `err?.response?.data?.message || fallback`: the text every form shows
      for a failed request. */
  function ErrorText(err: Value, fallback: string): (r: Value)
    ensures Truthy(ServerMessage(err)) ==> r == ServerMessage(err)
    ensures !Truthy(ServerMessage(err)) ==> r == Str(fallback)
    ensures fallback != "" ==> Truthy(r)
  {
    Or(ServerMessage(err), Str(fallback))
  }

  /** An error raised in the client, such as a `TypeError` or `new
      Error(msg)`, has no `response`, so its text is the fallback. */
  lemma ClientErrorText(msg: string, fallback: string)
    ensures ErrorText(Obj(map["message" := Str(msg)]), fallback) == Str(fallback)
  {
  }

  /** Reading a property of `null` or `undefined` throws a `TypeError`. */
  predicate Nullish(v: Value)
  {
    v.Null? || v.Undefined?
  }

  /** `entries.map(f)` where `f` reads properties of its entry: one result
      per entry, in order, or `None` (the `TypeError`) when some entry is
      `null` or `undefined`. */
  function MapEntries<T>(entries: seq<Value>, f: Value -> T): (r: Option<seq<T>>)
    ensures r.None? <==> exists i :: 0 <= i < |entries| && Nullish(entries[i])
    ensures r.Some? ==> |r.value| == |entries|
    ensures r.Some? ==> forall i :: 0 <= i < |entries| ==> r.value[i] == f(entries[i])
    decreases |entries|
  {
    if entries == [] then Some([])
    else if Nullish(entries[0]) then None
    else match MapEntries(entries[1..], f)
      case None =>
        var i :| 0 <= i < |entries[1..]| && Nullish(entries[1..][i]);
        assert entries[i + 1] == entries[1..][i];
        None
      case Some(rest) =>
        assert forall i :: 0 <= i < |entries| ==> !Nullish(entries[i]) by {
          forall i | 0 <= i < |entries| ensures !Nullish(entries[i]) {
            if i > 0 {
              assert entries[i] == entries[1..][i - 1];
            }
          }
        }
        var r := [f(entries[0])] + rest;
        assert forall i :: 0 <= i < |entries| ==> r[i] == f(entries[i]) by {
          forall i | 0 <= i < |entries| ensures r[i] == f(entries[i]) {
            if i > 0 {
              assert entries[i] == entries[1..][i - 1];
            }
          }
        }
        Some(r)
  }

  /** `JSON.parse` is not modelled: it is a parameter of this type, `None`
      standing for a thrown `SyntaxError`. */
  type Parser = string -> Option<Value>
}
