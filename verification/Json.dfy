/** JSON values as Go's encoding/json decodes them into any. */
module Json {
  import opened Wrappers

  datatype Value =
    | Null
    | Bool(b: bool)
    | Num(n: real)
    | Str(s: string)
    | Arr(items: seq<Value>)
    | Obj(fields: map<string, Value>)

  type Object = map<string, Value>

  function Strings(xs: seq<string>): (r: Value)
    ensures r.Arr? && |r.items| == |xs| && forall i :: 0 <= i < |xs| ==> r.items[i] == Str(xs[i])
  {
    Arr(seq(|xs|, i requires 0 <= i < |xs| => Str(xs[i])))
  }

  /** toStringSlice: a list all of whose items are strings. */
  function StringList(v: Value): Option<seq<string>> {
    if v.Arr? && forall i :: 0 <= i < |v.items| ==> v.items[i].Str? then
      Some(seq(|v.items|, i requires 0 <= i < |v.items| && v.items[i].Str? => v.items[i].s))
    else None
  }

  method ToStringSlice(v: Value) returns (r: Option<seq<string>>)
    ensures r == StringList(v)
    ensures r.Some? <==> v.Arr? && forall i :: 0 <= i < |v.items| ==> v.items[i].Str?
    ensures r.Some? ==> |r.value| == |v.items| && forall i :: 0 <= i < |v.items| ==> v.items[i] == Str(r.value[i])
  {
    if !v.Arr? {
      return None;
    }
    var out: seq<string> := [];
    for i := 0 to |v.items|
      invariant |out| == i
      invariant forall j :: 0 <= j < i ==> v.items[j] == Str(out[j])
    {
      if !v.items[i].Str? {
        return None;
      }
      out := out + [v.items[i].s];
    }
    assert StringList(v).value == out;
    r := Some(out);
  }

  lemma StringsRoundTrip(xs: seq<string>)
    ensures StringList(Strings(xs)) == Some(xs)
  {
    assert forall i :: 0 <= i < |xs| ==> Strings(xs).items[i] == Str(xs[i]);
    assert StringList(Strings(xs)).value == xs;
  }

  // A type assertion to string that falls back to "".
  function StrAt(o: Object, k: string): (r: string)
    ensures k in o && o[k].Str? ==> o[k] == Str(r)
    ensures k !in o || !o[k].Str? ==> r == ""
  {
    if k in o && o[k].Str? then o[k].s else ""
  }

  /** toInt: a number without fraction, in the range of a 64-bit int. */
  function IntOf(v: Value): Option<int> {
    if v.Num? && v.n == v.n.Floor as real && -0x8000_0000_0000_0000 <= v.n.Floor < 0x8000_0000_0000_0000
    then Some(v.n.Floor) else None
  }

  lemma IntOfExact(v: Value, n: int)
    ensures IntOf(v) == Some(n) <==> v == Num(n as real) && -9223372036854775808 <= n <= 9223372036854775807
  {
  }

  // Reading a nested object of a document.
  function Sub(v: Value, k: string): Object {
    if v.Obj? && k in v.fields && v.fields[k].Obj? then v.fields[k].fields else map[]
  }
}
