/**
  Python values as produced by the JSON decoder, and the handful of Python
  operations the bot applies to them: `dict.get`, indexing, the `in`
  operator and `str()`. Each operation returns either its value or the
  exception Python raises, with CPython 3.12's message text.
 */
module PyJson {
  import opened Wrappers

  /** A decoded JSON value. An object keeps its entries in insertion order. */
  datatype Json =
    | JNull
    | JBool(b: bool)
    | JNum(n: int)
    | JStr(s: string)
    | JList(items: seq<Json>)
    | JObj(fields: seq<(string, Json)>)

  /** The exception classes the bot raises itself or receives from the interpreter. */
  datatype ExcKind = TypeError | KeyError | IndexError | UnboundLocalError | PlainException

  /** A raised exception: its class and what `str()` of it gives. */
  datatype PyError = PyError(kind: ExcKind, text: string)

  /** `KeyError(message)`: `str()` of a KeyError is the repr of its argument, here a string with no single quote. */
  function KeyErrorOf(message: string): PyError
  {
    PyError(KeyError, "'" + message + "'")
  }

  /** `type(v).__name__` */
  function TypeName(v: Json): string
  {
    match v
    case JNull => "NoneType"
    case JBool(_) => "bool"
    case JNum(_) => "int"
    case JStr(_) => "str"
    case JList(_) => "list"
    case JObj(_) => "dict"
  }

  /**
    The value stored under `key`, if any. The decoder keeps the last of
    repeated keys, so the last entry with `key` is the one found.
   */
  function Lookup(fields: seq<(string, Json)>, key: string): (r: Option<Json>)
    ensures r.Some? <==> exists i :: 0 <= i < |fields| && fields[i].0 == key
    ensures r.Some? ==> exists i :: 0 <= i < |fields| && fields[i] == (key, r.value)
  {
    if |fields| == 0 then None
    else if fields[|fields| - 1].0 == key then Some(fields[|fields| - 1].1)
    else
      var earlier := fields[..|fields| - 1];
      var r := Lookup(earlier, key);
      assert r.Some? ==> exists i :: 0 <= i < |earlier| && earlier[i] == (key, r.value);
      r
  }

  /** When a key is repeated, the lookup yields the value of its last entry. */
  lemma {:induction false} LookupFindsLast(fields: seq<(string, Json)>, key: string, i: nat)
    requires i < |fields| && fields[i].0 == key
    requires forall j :: i < j < |fields| ==> fields[j].0 != key
    ensures Lookup(fields, key) == Some(fields[i].1)
    decreases |fields|
  {
    if i < |fields| - 1 {
      LookupFindsLast(fields[..|fields| - 1], key, i);
    }
  }

  /** `d.get(key)` on a dict: the value of the last entry with `key`, or None when there is none. */
  function Get(fields: seq<(string, Json)>, key: string): (r: Json)
    ensures (forall i :: 0 <= i < |fields| ==> fields[i].0 != key) ==> r == JNull
    ensures (exists i :: 0 <= i < |fields| && fields[i].0 == key) ==>
      exists i :: 0 <= i < |fields| && fields[i] == (key, r)
  {
    match Lookup(fields, key)
    case Some(v) => v
    case None => JNull
  }

  /** `d.get(key)` with a repeated key gives the value of its last entry. */
  lemma GetFindsLast(fields: seq<(string, Json)>, key: string, i: nat)
    requires i < |fields| && fields[i].0 == key
    requires forall j :: i < j < |fields| ==> fields[j].0 != key
    ensures Get(fields, key) == fields[i].1
  {
    LookupFindsLast(fields, key, i);
  }

  /** `v[0]` */
  function Index0(v: Json): (r: Result<Json, PyError>)
    ensures r.Ok? <==> (v.JList? && |v.items| > 0) || (v.JStr? && |v.s| > 0)
    ensures v.JList? && |v.items| > 0 ==> r.value == v.items[0]
    ensures v.JStr? && |v.s| > 0 ==> r.value == JStr([v.s[0]])
  {
    match v
    case JList(items) =>
      if |items| > 0 then Ok(items[0]) else Err(PyError(IndexError, "list index out of range"))
    case JStr(s) =>
      if |s| > 0 then Ok(JStr([s[0]])) else Err(PyError(IndexError, "string index out of range"))
    // JSON object keys are strings, so the integer key 0 is never present
    case JObj(_) => Err(PyError(KeyError, "0"))
    case _ => Err(PyError(TypeError, "'" + TypeName(v) + "' object is not subscriptable"))
  }

  /** `v[key]` with a string key */
  function Item(v: Json, key: string): (r: Result<Json, PyError>)
    ensures r.Ok? <==> v.JObj? && Lookup(v.fields, key).Some?
    ensures r.Ok? ==> r.value == Lookup(v.fields, key).value
  {
    match v
    case JObj(fields) =>
      (match Lookup(fields, key)
       case Some(x) => Ok(x)
       case None => Err(KeyErrorOf(key)))
    case JStr(_) => Err(PyError(TypeError, "string indices must be integers, not 'str'"))
    case JList(_) => Err(PyError(TypeError, "list indices must be integers or slices, not str"))
    case _ => Err(PyError(TypeError, "'" + TypeName(v) + "' object is not subscriptable"))
  }

  /** `needle` occurs as a contiguous block of `hay`. */
  predicate IsSubstring(needle: string, hay: string)
  {
    exists i :: 0 <= i <= |hay| && needle <= hay[i..]
  }

  /** `needle` occurs in `hay` starting at position `i`. */
  predicate OccursAt(needle: string, hay: string, i: int)
  {
    0 <= i && i + |needle| <= |hay| && hay[i..i + |needle|] == needle
  }

  /** The prefix formulation of substring search agrees with the positional one. */
  lemma SubstringOccurs(needle: string, hay: string)
    ensures IsSubstring(needle, hay) <==> exists i :: OccursAt(needle, hay, i)
  {
    if IsSubstring(needle, hay) {
      var i :| 0 <= i <= |hay| && needle <= hay[i..];
      assert hay[i..][..|needle|] == hay[i..i + |needle|];
      assert OccursAt(needle, hay, i);
    }
    if exists i :: OccursAt(needle, hay, i) {
      var i :| OccursAt(needle, hay, i);
      assert hay[i..][..|needle|] == hay[i..i + |needle|];
      assert needle <= hay[i..];
    }
  }

  /** Values the `in` operator can search: strings, lists and dicts. */
  predicate IsContainer(v: Json)
  {
    v.JStr? || v.JList? || v.JObj?
  }

  /** The message of the TypeError raised by `in` on a value of type `typeName`. */
  function NotIterableText(typeName: string): string
  {
    "argument of type '" + typeName + "' is not iterable"
  }

  /** `key in v` for a string `key` */
  function In(key: string, v: Json): (r: Result<bool, PyError>)
    ensures r.Ok? <==> IsContainer(v)
    ensures v.JObj? ==> r == Ok(exists i :: 0 <= i < |v.fields| && v.fields[i].0 == key)
    ensures v.JList? ==> r == Ok(JStr(key) in v.items)
    ensures v.JStr? ==> r == Ok(exists i :: OccursAt(key, v.s, i))
  {
    match v
    case JStr(s) => SubstringOccurs(key, s); Ok(IsSubstring(key, s))
    case JList(items) => Ok(exists i :: 0 <= i < |items| && items[i] == JStr(key))
    case JObj(fields) => Ok(Lookup(fields, key).Some?)
    case _ => Err(PyError(TypeError, NotIterableText(TypeName(v))))
  }

  /** The number a string of decimal digits denotes, most significant first. */
  function DigitsValue(s: string): int
  {
    if |s| == 0 then 0 else DigitsValue(s[..|s| - 1]) * 10 + (s[|s| - 1] as int - '0' as int)
  }

  /** Decimal digits of a natural number, most significant first, without leading zeros. */
  function NatDigits(n: nat): (r: string)
    ensures |r| > 0
    ensures forall i :: 0 <= i < |r| ==> '0' <= r[i] <= '9'
    ensures n >= 10 ==> r[0] != '0'
    ensures |r| > 1 ==> r[0] != '0'
    ensures DigitsValue(r) == n
    decreases n
  {
    var last := ['0' + (n % 10) as char];
    if n < 10 then last
    else
      var r := NatDigits(n / 10) + last;
      assert r[..|r| - 1] == NatDigits(n / 10);
      r
  }

  /** `str(n)` for an int: a minus sign for a negative number, then its digits. */
  function Decimal(n: int): (r: string)
    ensures |r| > 0
    ensures r[0] == '-' <==> n < 0
    ensures n >= 0 ==> DigitsValue(r) == n
    ensures n < 0 ==> DigitsValue(r[1..]) == -n
    ensures |r| > Sign(n)
    ensures forall i :: Sign(n) <= i < |r| ==> '0' <= r[i] <= '9'
    ensures r[Sign(n)] == '0' ==> n == 0
    ensures |r| > Sign(n) + 1 ==> r[Sign(n)] != '0'
  {
    if n < 0 then
      var r := "-" + NatDigits(-n);
      assert r[1..] == NatDigits(-n);
      r
    else NatDigits(n)
  }

  /** Length of the sign in `str(n)`: one for a negative number, none otherwise. */
  function Sign(n: int): nat
  {
    if n < 0 then 1 else 0
  }

  /** The elements of `parts` with `sep` between consecutive ones. */
  function Join(parts: seq<string>, sep: string): (r: string)
    ensures |parts| == 0 ==> r == ""
    ensures |parts| > 0 ==> parts[0] <= r
  {
    if |parts| == 0 then ""
    else if |parts| == 1 then parts[0]
    else parts[0] + sep + Join(parts[1..], sep)
  }

  /** `repr(v)`; strings are quoted without escaping their contents. */
  function Repr(v: Json): (r: string)
    ensures |r| >= 2 || v.JNum?
    ensures v.JStr? ==> r[0] == '\'' && r[|r| - 1] == '\'' && r[1..|r| - 1] == v.s
    ensures v.JList? ==> r[0] == '[' && r[|r| - 1] == ']'
    ensures v.JList? && |v.items| == 0 ==> r == "[]"
    ensures v.JObj? ==> r[0] == '{' && r[|r| - 1] == '}'
    ensures v.JObj? && |v.fields| == 0 ==> r == "{}"
    ensures v.JNum? ==> r == Decimal(v.n)
    decreases v
  {
    match v
    case JNull => "None"
    case JBool(b) => if b then "True" else "False"
    case JNum(n) => Decimal(n)
    case JStr(s) => "'" + s + "'"
    case JList(items) => "[" + Join(ItemReprs(v), ", ") + "]"
    case JObj(fields) => "{" + Join(EntryReprs(v), ", ") + "}"
  }

  /** The reprs of a list's elements, in order. */
  function ItemReprs(v: Json): (r: seq<string>)
    requires v.JList?
    ensures |r| == |v.items|
    decreases v, 0
  {
    seq(|v.items|, i requires 0 <= i < |v.items| => Repr(v.items[i]))
  }

  /** A dict's entries rendered as `'key': value`, in order. */
  function EntryReprs(v: Json): (r: seq<string>)
    requires v.JObj?
    ensures |r| == |v.fields|
    decreases v, 0
  {
    seq(|v.fields|, i requires 0 <= i < |v.fields| => EntryText(v.fields[i].0, Repr(v.fields[i].1)))
  }

  /** One `'key': value` entry of a dict's repr. */
  function EntryText(key: string, value: string): string
  {
    "'" + key + "': " + value
  }

  /** Every part of a joined sequence occurs in the joined text. */
  lemma {:induction false} JoinContains(parts: seq<string>, sep: string, i: nat)
    requires i < |parts|
    ensures exists k :: OccursAt(parts[i], Join(parts, sep), k)
    decreases |parts|
  {
    var j := Join(parts, sep);
    if i == 0 {
      assert j[0..|parts[0]|] == parts[0];
      assert OccursAt(parts[0], j, 0);
    } else {
      var rest := Join(parts[1..], sep);
      JoinContains(parts[1..], sep, i - 1);
      var k :| OccursAt(parts[1..][i - 1], rest, k);
      var off := |parts[0]| + |sep|;
      assert j == parts[0] + sep + rest;
      assert j[off + k..off + k + |parts[i]|] == rest[k..k + |parts[i]|];
      assert OccursAt(parts[i], j, off + k);
    }
  }

  /** Text placed between an opening and a closing character keeps its occurrences, one further on. */
  lemma Bracketed(open: char, body: string, close: char, part: string)
    requires exists k :: OccursAt(part, body, k)
    ensures exists k :: 1 <= k && OccursAt(part, [open] + body + [close], k)
  {
    var k :| OccursAt(part, body, k);
    var r := [open] + body + [close];
    assert r[k + 1..k + 1 + |part|] == body[k..k + |part|];
    assert OccursAt(part, r, k + 1);
  }

  /** `str()` of a list shows the repr of each of its elements inside the brackets. */
  lemma ListShowsElements(v: Json, i: nat)
    requires v.JList? && i < |v.items|
    ensures exists k :: 1 <= k && OccursAt(Repr(v.items[i]), Show(v), k)
    ensures exists k :: 1 <= k && OccursAt(Repr(v.items[i]), Repr(v), k)
  {
    var parts := ItemReprs(v);
    assert parts[i] == Repr(v.items[i]);
    var body := Join(parts, ", ");
    JoinContains(parts, ", ", i);
    Bracketed('[', body, ']', parts[i]);
    assert Repr(v) == ['['] + body + [']'];
    var k :| 1 <= k && OccursAt(parts[i], Repr(v), k);
    assert Show(v) == Repr(v);
    assert OccursAt(parts[i], Show(v), k);
  }

  /** `str()` of a dict shows each of its entries as `'key': ` followed by the value's repr. */
  lemma DictShowsEntries(v: Json, i: nat)
    requires v.JObj? && i < |v.fields|
    ensures exists k :: 1 <= k && OccursAt("'" + v.fields[i].0 + "': " + Repr(v.fields[i].1), Show(v), k)
    ensures exists k :: 1 <= k && OccursAt("'" + v.fields[i].0 + "': " + Repr(v.fields[i].1), Repr(v), k)
  {
    var parts := EntryReprs(v);
    assert parts[i] == "'" + v.fields[i].0 + "': " + Repr(v.fields[i].1);
    var body := Join(parts, ", ");
    JoinContains(parts, ", ", i);
    Bracketed('{', body, '}', parts[i]);
    assert Repr(v) == ['{'] + body + ['}'];
    var k :| 1 <= k && OccursAt(parts[i], Repr(v), k);
    assert Show(v) == Repr(v);
    assert OccursAt(parts[i], Show(v), k);
  }

  /** `str(v)`, which is what an f-string substitutes: a string as itself, anything else as its repr. */
  function Show(v: Json): (r: string)
    ensures v.JStr? ==> r == v.s
    ensures !v.JStr? ==> |r| > 0
    ensures v.JNull? ==> r == "None"
    ensures v.JBool? ==> r == (if v.b then "True" else "False")
    ensures v.JNum? && v.n >= 0 ==> DigitsValue(r) == v.n
    ensures v.JNum? && v.n < 0 ==> r[0] == '-' && DigitsValue(r[1..]) == -v.n
    ensures v.JNum? ==> r == Decimal(v.n)
    ensures v.JList? ==> r[0] == '[' && r[|r| - 1] == ']'
    ensures v.JList? && |v.items| == 0 ==> r == "[]"
    ensures v.JObj? ==> r[0] == '{' && r[|r| - 1] == '}'
    ensures v.JObj? && |v.fields| == 0 ==> r == "{}"
  {
    if v.JStr? then v.s else Repr(v)
  }
}
