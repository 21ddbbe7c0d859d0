// JSON values as json.loads and a parsed HTTP body give them.
module JsonValue {
  import opened Wrappers

  datatype Json =
    | Null
    | Bool(b: bool)
    | Integer(i: int)  // a number without fraction or exponent
    | Number(n: real)
    | Text(s: string)
    | Array(items: seq<Json>)
    | Object(fields: map<string, Json>)

  // The value itself and everything nested in it.
  function Subterms(v: Json): set<Json> {
    {v} + match v
          case Array(items) => set x, y | x in items && y in Subterms(x) :: y
          case Object(fields) => set k, y | k in fields && y in Subterms(fields[k]) :: y
          case _ => {}
  }

  lemma {:induction false} SubtermsClosed(v: Json, x: Json)
    requires x in Subterms(v)
    ensures Subterms(x) <= Subterms(v)
  {
    if x != v {
      match v
      case Array(items) =>
        var y :| y in items && x in Subterms(y);
        SubtermsClosed(y, x);
      case Object(fields) =>
        var k :| k in fields && x in Subterms(fields[k]);
        SubtermsClosed(fields[k], x);
    }
  }

  // n.toString()
  function Decimal(n: nat): string {
    (if n < 10 then [] else Decimal(n / 10)) + ["0123456789"[n % 10]]
  }

  function ArrayField(items: seq<Json>, key: string): Option<Json> {
    if items == [] then None
    else
      var n := |items| - 1;
      if Decimal(n) == key then Some(items[n]) else ArrayField(items[..n], key)
  }

  // v[key] in JavaScript for an object or an array, own properties only.
  function Field(v: Json, key: string): Option<Json> {
    match v
    case Object(fields) => if key in fields then Some(fields[key]) else None
    case Array(items) => if key == "length" then Some(Integer(|items|)) else ArrayField(items, key)
    case _ => None
  }

  // row.get(key) in Python
  function Get(row: Json, key: string): Json
    requires row.Object?
  {
    if key in row.fields then row.fields[key] else Null
  }

  // v && typeof v === "object"
  predicate IsObject(v: Json) {
    v.Object? || v.Array?
  }

  lemma {:induction false} ArrayFieldIsItem(items: seq<Json>, key: string)
    ensures ArrayField(items, key).Some? ==> ArrayField(items, key).value in items
  {
    if items != [] {
      ArrayFieldIsItem(items[..|items| - 1], key);
    }
  }

  lemma {:induction false} FieldIsSubterm(v: Json, key: string)
    requires Field(v, key).Some? && IsObject(Field(v, key).value)
    ensures Field(v, key).value in Subterms(v)
  {
    var x := Field(v, key).value;
    assert x in Subterms(x);
    if v.Array? {
      ArrayFieldIsItem(v.items, key);
    } else {
      assert v.fields[key] == x;
    }
  }

  // The number a text of digits stands for.
  function Worth(s: string): int {
    if s == [] then 0 else 10 * Worth(s[..|s| - 1]) + (s[|s| - 1] as int - '0' as int)
  }

  // Decimal writes the number in digits, without leading zeros.
  lemma {:induction false} DecimalMeans(n: nat)
    ensures Worth(Decimal(n)) == n
    ensures Decimal(n) != [] && forall i :: 0 <= i < |Decimal(n)| ==> '0' <= Decimal(n)[i] <= '9'
    ensures n > 0 ==> Decimal(n)[0] != '0'
    ensures n == 0 ==> Decimal(n) == "0"
  {
    var last := "0123456789"[n % 10];
    assert last as int - '0' as int == n % 10;
    if n >= 10 {
      DecimalMeans(n / 10);
      assert Decimal(n)[..|Decimal(n)| - 1] == Decimal(n / 10);
    } else {
      assert Decimal(n) == [last];
      assert Worth([]) == 0 && [last][..0] == [];
    }
  }

  lemma {:induction false} DecimalDiffers(a: nat, b: nat)
    requires Decimal(a) == Decimal(b)
    ensures a == b
  {
    DecimalMeans(a);
    DecimalMeans(b);
  }

  // An array has its items under their decimal index, and its length.
  lemma {:induction false} FieldMeans(v: Json, key: string, x: Json)
    ensures v.Object? ==> (Field(v, key) == Some(x) <==> key in v.fields && v.fields[key] == x)
    ensures v.Array? ==>
              (Field(v, key) == Some(x) <==>
               || (key == "length" && x == Integer(|v.items|))
               || (exists i: nat :: i < |v.items| && key == Decimal(i) && x == v.items[i]))
    ensures !v.Object? && !v.Array? ==> Field(v, key) == None
  {
    if v.Array? {
      ArrayFieldMeans(v.items, key, x);
      forall i: nat ensures Decimal(i) != "length" {
        DecimalMeans(i);
      }
    }
  }

  lemma {:induction false} ArrayFieldMeans(items: seq<Json>, key: string, x: Json)
    ensures ArrayField(items, key) == Some(x) <==> exists i: nat :: i < |items| && key == Decimal(i) && x == items[i]
  {
    hide Decimal;
    if items != [] {
      var n := |items| - 1;
      ArrayFieldMeans(items[..n], key, x);
      if i: nat :| i < |items| && key == Decimal(i) && x == items[i] {
        if i < n {
          assert items[..n][i] == items[i];
          if Decimal(n) == key {
            DecimalDiffers(i, n);
          }
        }
      }
      if ArrayField(items, key) == Some(x) && Decimal(n) != key {
        var i: nat :| i < n && key == Decimal(i) && x == items[..n][i];
        assert items[i] == x;
      }
    }
  }
}
