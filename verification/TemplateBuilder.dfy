// The argument template of console/app/capabilities/page.tsx: mutual recursion
// over a JSON schema whose $ref edges can form cycles.
module TemplateBuilder {
  import opened Wrappers
  import opened JsonValue

  // What a template holds; Generated stands for the time-stamped random key.
  datatype Value = Constant(json: Json) | Generated | Fields(fields: map<string, Value>)

  const PREFIX := "#/$defs/"

  function Dereference(schema: Json, root: Json): Json {
    match Field(schema, "$ref")
    case Some(Text(reference)) =>
      if !(PREFIX <= reference) then schema
      else
        var definitions := Field(root, "$defs");
        if definitions.None? || !IsObject(definitions.value) then schema
        else
          var target := Field(definitions.value, reference[|PREFIX|..]);
          if target.Some? && IsObject(target.value) then target.value else schema
    case _ => schema
  }

  // anyOf.find: the first object whose type is not "null".
  function FirstCandidate(items: seq<Json>): Option<Json> {
    if items == [] then None
    else if IsObject(items[0]) && Field(items[0], "type") != Some(Text("null")) then Some(items[0])
    else FirstCandidate(items[1..])
  }

  function Candidate(resolved: Json): Option<Json> {
    match Field(resolved, "anyOf")
    case Some(Array(items)) => FirstCandidate(items)
    case _ => None
  }

  function Strings(items: seq<Json>): seq<string> {
    if items == [] then []
    else
      var n := |items| - 1;
      Strings(items[..n]) + if items[n].Text? then [items[n].s] else []
  }

  function Required(schema: Json): seq<string> {
    match Field(schema, "required")
    case Some(Array(items)) => Strings(items)
    case _ => []
  }

  function Property(schema: Json, key: string): Option<Json> {
    match Field(schema, "properties")
    case None => None
    case Some(properties) =>
      if !IsObject(properties) then None
      else
        var property := Field(properties, key);
        if property.Some? && IsObject(property.value) then property else None
  }

  // The required, declared, object-valued properties.
  function Declared(schema: Json): set<string> {
    set k | k in Required(schema) && Property(schema, k).Some?
  }

  // ---- placeholderFor as calls ----

  datatype Node = Node(schema: Json, key: string)

  datatype Shape = Leaf(value: Value) | Choice(candidate: Json) | Record

  function ShapeOf(n: Node, root: Json): Shape {
    var resolved := Dereference(n.schema, root);
    var type_ := Field(resolved, "type");
    if Field(resolved, "const").Some? then Leaf(Constant(Field(resolved, "const").value))
    else if n.key == "idempotency_key" then Leaf(Generated)
    else if n.key == "confirmed_by" || n.key == "reviewed_by" then Leaf(Constant(Text("user")))
    else if Candidate(resolved).Some? then Choice(Candidate(resolved).value)
    else if type_ == Some(Text("array")) then Leaf(Constant(Array([])))
    else if type_ == Some(Text("object")) then Record
    else if type_ == Some(Text("boolean")) then Leaf(Constant(Bool(false)))
    else if type_ == Some(Text("integer")) || type_ == Some(Text("number")) then Leaf(Constant(Integer(0)))
    else Leaf(Constant(Text("")))
  }

  function MemberNode(schema: Json, key: string): Node
    requires Property(schema, key).Some?
  {
    Node(Property(schema, key).value, key)
  }

  function Members(schema: Json): set<Node> {
    set k | k in Declared(schema) :: MemberNode(schema, k)
  }

  // The recursive calls placeholderFor makes.
  function Calls(n: Node, root: Json): set<Node> {
    match ShapeOf(n, root)
    case Leaf(_) => {}
    case Choice(candidate) => {Node(candidate, n.key)}
    case Record => Members(Dereference(n.schema, root))
  }

  // Evaluation with a stack of the given depth; None when it is not enough.
  function Placeholder(n: Node, root: Json, depth: nat): Option<Value>
    decreases depth, 0
  {
    if depth == 0 then None
    else
      match ShapeOf(n, root)
      case Leaf(v) => Some(v)
      case Choice(candidate) => Placeholder(Node(candidate, n.key), root, depth - 1)
      case Record =>
        var fields := RequiredObject(Dereference(n.schema, root), root, depth - 1);
        if fields.None? then None else Some(Fields(fields.value))
  }

  predicate AllReturn(nodes: set<Node>, root: Json, depth: nat)
    decreases depth, 1
  {
    forall c :: c in nodes ==> Placeholder(c, root, depth).Some?
  }

  function RequiredObject(schema: Json, root: Json, depth: nat): Option<map<string, Value>>
    decreases depth, 2
  {
    if !AllReturn(Members(schema), root, depth) then None
    else
      var keys := Declared(schema);
      assert forall k :: k in keys ==> MemberNode(schema, k) in Members(schema);
      Some(map k | k in keys :: Placeholder(MemberNode(schema, k), root, depth).value)
  }

  ghost predicate Terminates(n: Node, root: Json) {
    exists depth :: Placeholder(n, root, depth).Some?
  }

  // ---- the functions of the page as methods ----

  method PlaceholderFor(schema: Json, root: Json, key: string, depth: nat) returns (r: Option<Value>)
    ensures r == Placeholder(Node(schema, key), root, depth)
    decreases depth, 0
  {
    if depth == 0 {
      return None;
    }
    var n := Node(schema, key);
    match ShapeOf(n, root)
    case Leaf(v) => r := Some(v);
    case Choice(candidate) => r := PlaceholderFor(candidate, root, key, depth - 1);
    case Record =>
      var fields := FillRequired(Dereference(schema, root), root, depth - 1);
      r := if fields.None? then None else Some(Fields(fields.value));
  }

  method FillRequired(schema: Json, root: Json, depth: nat) returns (r: Option<map<string, Value>>)
    ensures r == RequiredObject(schema, root, depth)
    decreases depth, 1
  {
    hide Property, Required, Placeholder;
    var required := Required(schema);
    var values: map<string, Value> := map[];
    for i := 0 to |required|
      invariant values.Keys == DeclaredAmong(schema, required[..i])
      invariant forall k :: k in values ==> Filled(schema, root, depth, k, values[k])
    {
      var key := required[i];
      var property := Property(schema, key);
      assert required[..i + 1] == required[..i] + [key];
      if property.Some? {
        var value := PlaceholderFor(property.value, root, key, depth);
        if value.None? {
          FirstFailure(schema, root, depth, key);
          return None;
        }
        values := values[key := value.value];
      }
    }
    assert required[..|required|] == required;
    FilledIsRequired(schema, root, depth, values);
    r := Some(values);
  }

  function DeclaredAmong(schema: Json, required: seq<string>): set<string> {
    set k | k in required && Property(schema, k).Some?
  }

  predicate Filled(schema: Json, root: Json, depth: nat, key: string, value: Value) {
    Property(schema, key).Some? && Placeholder(MemberNode(schema, key), root, depth) == Some(value)
  }

  lemma {:induction false} FirstFailure(schema: Json, root: Json, depth: nat, key: string)
    requires key in Declared(schema) && Placeholder(MemberNode(schema, key), root, depth).None?
    ensures RequiredObject(schema, root, depth).None?
  {
    assert MemberNode(schema, key) in Members(schema);
  }

  lemma {:induction false} FilledIsRequired(schema: Json, root: Json, depth: nat, values: map<string, Value>)
    requires values.Keys == Declared(schema)
    requires forall k :: k in values ==> Filled(schema, root, depth, k, values[k])
    ensures RequiredObject(schema, root, depth) == Some(values)
  {
    hide Placeholder, Declared, Property;
    RequiredObjectIs(schema, root, depth);
    forall c | c in Members(schema) ensures Placeholder(c, root, depth).Some? {
      var k :| k in Declared(schema) && c == MemberNode(schema, k);
      assert Filled(schema, root, depth, k, values[k]);
    }
    assert AllReturn(Members(schema), root, depth);
    var fields := RequiredObject(schema, root, depth).value;
    forall k | k in fields ensures fields[k] == values[k] {
      assert Filled(schema, root, depth, k, values[k]);
    }
    assert fields == values;
  }

  lemma {:induction false} RequiredObjectIs(schema: Json, root: Json, depth: nat)
    ensures RequiredObject(schema, root, depth).Some? <==> AllReturn(Members(schema), root, depth)
    ensures match RequiredObject(schema, root, depth)
            case None => true
            case Some(fields) =>
              && fields.Keys == Declared(schema)
              && forall k :: k in fields ==>
                   Property(schema, k).Some? && Placeholder(MemberNode(schema, k), root, depth) == Some(fields[k])
  {
    hide Property, Required, Placeholder;
    var keys := Declared(schema);
    assert forall k :: k in keys ==> MemberNode(schema, k) in Members(schema);
  }

  // ---- a deeper stack changes nothing ----

  lemma {:induction false} DeeperIsSame(n: Node, root: Json, depth: nat, deeper: nat)
    requires depth <= deeper && Placeholder(n, root, depth).Some?
    ensures Placeholder(n, root, deeper) == Placeholder(n, root, depth)
    decreases depth, 0
  {
    hide ShapeOf, Dereference;
    match ShapeOf(n, root)
    case Leaf(_) =>
    case Choice(candidate) => DeeperIsSame(Node(candidate, n.key), root, depth - 1, deeper - 1);
    case Record => DeeperRecord(Dereference(n.schema, root), root, depth - 1, deeper - 1);
  }

  lemma {:induction false} DeeperRecord(schema: Json, root: Json, depth: nat, deeper: nat)
    requires depth <= deeper && RequiredObject(schema, root, depth).Some?
    ensures RequiredObject(schema, root, deeper) == RequiredObject(schema, root, depth)
    decreases depth, 1
  {
    hide Placeholder, Property, Required, Declared;
    RequiredObjectIs(schema, root, depth);
    forall c | c in Members(schema)
      ensures Placeholder(c, root, deeper) == Placeholder(c, root, depth)
    {
      DeeperIsSame(c, root, depth, deeper);
    }
    var values := RequiredObject(schema, root, depth).value;
    forall k | k in values ensures Filled(schema, root, deeper, k, values[k]) {
      assert MemberNode(schema, k) in Members(schema);
    }
    FilledIsRequired(schema, root, deeper, values);
  }

  // ---- termination is acyclicity ----

  lemma {:induction false} CallsReturn(n: Node, root: Json, depth: nat)
    ensures Placeholder(n, root, depth + 1).Some? <==> AllReturn(Calls(n, root), root, depth)
  {
  }

  ghost predicate Path(p: seq<Node>, root: Json) {
    forall i :: 0 <= i < |p| - 1 ==> p[i + 1] in Calls(p[i], root)
  }

  ghost predicate From(p: seq<Node>, n: Node, root: Json) {
    p != [] && p[0] == n && Path(p, root)
  }

  ghost predicate Repeats(p: seq<Node>) {
    exists i, j :: 0 <= i < j < |p| && p[i] == p[j]
  }

  // No chain of calls from n comes back to a call it has made already.
  ghost predicate Acyclic(n: Node, root: Json) {
    forall p :: From(p, n, root) ==> !Repeats(p)
  }

  lemma {:induction false} DepthFallsAlong(p: seq<Node>, root: Json, depth: nat)
    requires p != [] && Path(p, root) && Placeholder(p[0], root, depth).Some?
    ensures |p| <= depth && Placeholder(p[|p| - 1], root, depth - |p| + 1).Some?
    decreases depth
  {
    if |p| > 1 {
      CallsReturn(p[0], root, depth - 1);
      assert p[1] in Calls(p[0], root);
      assert Path(p[1..], root) by {
        forall i | 0 <= i < |p[1..]| - 1 ensures p[1..][i + 1] in Calls(p[1..][i], root) {
          assert p[i + 1 + 1] in Calls(p[i + 1], root);
        }
      }
      DepthFallsAlong(p[1..], root, depth - 1);
    }
  }

  lemma {:induction false} NoReturnToStart(p: seq<Node>, root: Json, depth: nat)
    requires |p| >= 2 && Path(p, root) && p[0] == p[|p| - 1]
    ensures Placeholder(p[0], root, depth).None?
    decreases depth
  {
    if Placeholder(p[0], root, depth).Some? {
      DepthFallsAlong(p, root, depth);
      NoReturnToStart(p, root, depth - |p| + 1);
    }
  }

  lemma {:induction false} PathSlice(p: seq<Node>, root: Json, i: nat, j: nat)
    requires Path(p, root) && i <= j <= |p|
    ensures Path(p[i..j], root)
  {
    forall k | 0 <= k < |p[i..j]| - 1 ensures p[i..j][k + 1] in Calls(p[i..j][k], root) {
      assert p[i + k + 1] in Calls(p[i + k], root);
    }
  }

  lemma {:induction false} TerminatesAcyclic(n: Node, root: Json, depth: nat)
    requires Placeholder(n, root, depth).Some?
    ensures Acyclic(n, root)
  {
    hide Placeholder, Path;
    forall p | From(p, n, root) ensures !Repeats(p) {
      if Repeats(p) {
        var i, j :| 0 <= i < j < |p| && p[i] == p[j];
        NoCycleBelow(p, root, depth, i, j);
      }
    }
  }

  lemma {:induction false} NoCycleBelow(p: seq<Node>, root: Json, depth: nat, i: nat, j: nat)
    requires Path(p, root) && i < j < |p| && p[i] == p[j]
    ensures Placeholder(p[0], root, depth).None?
  {
    hide Placeholder, Path;
    if Placeholder(p[0], root, depth).Some? {
      PathSlice(p, root, 0, i + 1);
      DepthFallsAlong(p[..i + 1], root, depth);
      PathSlice(p, root, i, j + 1);
      NoReturnToStart(p[i..j + 1], root, depth - i);
    }
  }

  // Every call stays among the schemas nested in the two documents and the
  // strings nested in them.
  function Universe(n: Node, root: Json): set<Json> {
    Subterms(n.schema) + Subterms(root)
  }

  function Names(schemas: set<Json>, key: string): set<string> {
    (set x | x in schemas && x.Text? :: x.s) + {key}
  }

  function Nodes(n: Node, root: Json): set<Node> {
    set s, k | s in Universe(n, root) && k in Names(Universe(n, root), n.key) :: Node(s, k)
  }

  lemma {:induction false} DereferenceStays(schema: Json, root: Json)
    ensures Dereference(schema, root) == schema || Dereference(schema, root) in Subterms(root)
  {
    if Dereference(schema, root) != schema {
      var definitions := Field(root, "$defs").value;
      var name := Field(schema, "$ref").value.s[|PREFIX|..];
      FieldIsSubterm(root, "$defs");
      FieldIsSubterm(definitions, name);
      SubtermsClosed(root, definitions);
    }
  }

  lemma {:induction false} CandidateStays(items: seq<Json>)
    ensures FirstCandidate(items).Some? ==> FirstCandidate(items).value in items
  {
    if items != [] {
      CandidateStays(items[1..]);
    }
  }

  lemma {:induction false} ItemIsSubterm(v: Json, key: string, x: Json)
    requires Field(v, key).Some? && Field(v, key).value.Array? && x in Field(v, key).value.items
    ensures x in Subterms(v)
  {
    var list := Field(v, key).value;
    FieldIsSubterm(v, key);
    assert x in Subterms(x);
    assert x in Subterms(list);
    SubtermsClosed(v, list);
  }

  lemma {:induction false} StringsAreItems(items: seq<Json>, k: string)
    requires k in Strings(items)
    ensures Text(k) in items
  {
    var n := |items| - 1;
    if k in Strings(items[..n]) {
      StringsAreItems(items[..n], k);
    }
  }

  lemma {:induction false} PropertyIsSubterm(schema: Json, key: string)
    requires Property(schema, key).Some?
    ensures Property(schema, key).value in Subterms(schema)
  {
    var properties := Field(schema, "properties").value;
    FieldIsSubterm(schema, "properties");
    FieldIsSubterm(properties, key);
    SubtermsClosed(schema, properties);
  }

  // One call from a schema inside the universe.
  lemma {:induction false} CallStays(u: set<Json>, m: Node, root: Json, c: Node)
    requires Subterms(root) <= u && Subterms(m.schema) <= u && c in Calls(m, root)
    ensures c.schema in u && Subterms(c.schema) <= u && c.key in Names(u, m.key)
  {
    var resolved := Dereference(m.schema, root);
    DereferenceStays(m.schema, root);
    if resolved != m.schema {
      SubtermsClosed(root, resolved);
    }
    assert c.schema in Subterms(resolved) && c.key in Names(u, m.key) by {
      if ShapeOf(m, root).Choice? {
        CandidateStays(Field(resolved, "anyOf").value.items);
        ItemIsSubterm(resolved, "anyOf", c.schema);
      } else {
        var k :| k in Declared(resolved) && c == MemberNode(resolved, k);
        PropertyIsSubterm(resolved, k);
        StringsAreItems(Field(resolved, "required").value.items, k);
        ItemIsSubterm(resolved, "required", Text(k));
      }
    }
    SubtermsClosed(resolved, c.schema);
  }

  lemma {:induction false} PathStays(p: seq<Node>, n: Node, root: Json)
    requires From(p, n, root)
    ensures Subterms(p[|p| - 1].schema) <= Universe(n, root)
    ensures forall m :: m in p ==> m in Nodes(n, root)
  {
    hide Calls, Nodes, Universe, Subterms;
    var last := |p| - 1;
    if last == 0 {
      StartStays(n, root);
    } else {
      PathSlice(p, root, 0, last);
      PathStays(p[..last], n, root);
      assert p[..last][last - 1] in p[..last];
      assert p[last - 1 + 1] in Calls(p[last - 1], root);
      StepStays(n, root, p[last - 1], p[last]);
      assert p == p[..last] + [p[last]];
    }
  }

  lemma {:induction false} StartStays(n: Node, root: Json)
    ensures n in Nodes(n, root) && Subterms(n.schema) <= Universe(n, root)
  {
    assert n.schema in Subterms(n.schema);
  }

  lemma {:induction false} StepStays(n: Node, root: Json, m: Node, c: Node)
    requires m in Nodes(n, root) && Subterms(m.schema) <= Universe(n, root) && c in Calls(m, root)
    ensures c in Nodes(n, root) && Subterms(c.schema) <= Universe(n, root)
  {
    hide Calls, Subterms;
    CallStays(Universe(n, root), m, root, c);
    assert c.key in Names(Universe(n, root), n.key);
  }

  lemma {:induction false} UnrepeatedIsShort(p: seq<Node>, nodes: set<Node>)
    requires !Repeats(p) && forall m :: m in p ==> m in nodes
    ensures |p| <= |nodes|
  {
    if p != [] {
      var n := |p| - 1;
      forall i, j | 0 <= i < j < n ensures p[..n][i] != p[..n][j] {
        assert p[i] != p[j];
      }
      UnrepeatedIsShort(p[..n], nodes - {p[n]});
    }
  }

  lemma {:induction false} EnoughBelow(p: seq<Node>, n: Node, root: Json, rest: nat)
    requires Acyclic(n, root) && From(p, n, root)
    requires rest == |Nodes(n, root)| - |p|
    ensures Placeholder(p[|p| - 1], root, rest + 1).Some?
    decreases rest
  {
    var m := p[|p| - 1];
    forall c | c in Calls(m, root) ensures Placeholder(c, root, rest).Some? {
      var longer := p + [c];
      assert From(longer, n, root);
      PathStays(longer, n, root);
      UnrepeatedIsShort(longer, Nodes(n, root));
      EnoughBelow(longer, n, root, rest - 1);
      assert longer[|longer| - 1] == c;
    }
    CallsReturn(m, root, rest);
  }

  // Template generation returns exactly when no chain of $ref, anyOf and required
  // edges comes back to itself, and then a stack as deep as the number of
  // schema and key pairs is enough.
  lemma {:induction false} TerminatesIffAcyclic(n: Node, root: Json)
    ensures Terminates(n, root) <==> Acyclic(n, root)
    ensures Acyclic(n, root) ==> Placeholder(n, root, |Nodes(n, root)|).Some?
  {
    if Terminates(n, root) {
      var depth :| Placeholder(n, root, depth).Some?;
      TerminatesAcyclic(n, root, depth);
    }
    if Acyclic(n, root) {
      var p := [n];
      assert From(p, n, root);
      PathStays(p, n, root);
      UnrepeatedIsShort(p, Nodes(n, root));
      EnoughBelow(p, n, root, |Nodes(n, root)| - 1);
    }
  }

  // The depth of the stack decides whether there is an answer, never which one.
  lemma {:induction false} OneAnswer(n: Node, root: Json, a: nat, b: nat)
    requires Placeholder(n, root, a).Some? && Placeholder(n, root, b).Some?
    ensures Placeholder(n, root, a) == Placeholder(n, root, b)
  {
    if a <= b {
      DeeperIsSame(n, root, a, b);
    } else {
      DeeperIsSame(n, root, b, a);
    }
  }

  // ---- what the value holds, at every depth ----

  // The value under a chain of property names.
  function At(v: Value, path: seq<string>): Option<Value> {
    if path == [] then Some(v)
    else if v.Fields? && path[0] in v.fields then At(v.fields[path[0]], path[1..])
    else None
  }

  // The schema under the same chain: anyOf choices are followed, and only
  // required declared properties are entered.
  function SchemaAt(n: Node, root: Json, path: seq<string>, depth: nat): Option<Node>
    decreases depth
  {
    if depth == 0 then None
    else
      var shape := ShapeOf(n, root);
      var resolved := Dereference(n.schema, root);
      if shape.Choice? then SchemaAt(Node(shape.candidate, n.key), root, path, depth - 1)
      else if path == [] then Some(n)
      else if shape.Record? && path[0] in Declared(resolved) then
        SchemaAt(MemberNode(resolved, path[0]), root, path[1..], depth - 1)
      else None
  }

  // The value is the empty one of the type the schema names, or the empty text.
  ghost predicate HasType(v: Value, type_: Option<Json>) {
    match type_
    case Some(Text("array")) => v == Constant(Array([]))
    case Some(Text("object")) => v.Fields?
    case Some(Text("boolean")) => v == Constant(Bool(false))
    case Some(Text("integer")) => v == Constant(Integer(0))
    case Some(Text("number")) => v == Constant(Integer(0))
    case _ => v == Constant(Text(""))
  }

  predicate SpecialKey(key: string) {
    key == "idempotency_key" || key == "confirmed_by" || key == "reviewed_by"
  }

  // The value v answers the schema of node m.
  ghost predicate Answers(v: Value, m: Node, root: Json) {
    var resolved := Dereference(m.schema, root);
    && (v.Fields? ==> v.fields.Keys == Declared(resolved) && Field(resolved, "type") == Some(Text("object")))
    && match Field(resolved, "const")
       case Some(value) => v == Constant(value)
       case None =>
         && (m.key == "idempotency_key" ==> v == Generated)
         && (m.key == "confirmed_by" || m.key == "reviewed_by" ==> v == Constant(Text("user")))
         && (m.key !in {"idempotency_key", "confirmed_by", "reviewed_by"} ==>
               Candidate(resolved).None? && HasType(v, Field(resolved, "type")))
  }

  lemma {:induction false} EveryDepth(n: Node, root: Json, depth: nat, path: seq<string>)
    requires Placeholder(n, root, depth).Some?
    ensures var v := At(Placeholder(n, root, depth).value, path);
            var m := SchemaAt(n, root, path, depth);
            && (v.Some? <==> m.Some?)
            && (v.Some? ==> Answers(v.value, m.value, root))
    decreases depth
  {
    hide Dereference, Candidate, Declared, Property, Required, Field;
    var resolved := Dereference(n.schema, root);
    match ShapeOf(n, root)
    case Leaf(_) =>
    case Choice(candidate) => EveryDepth(Node(candidate, n.key), root, depth - 1, path);
    case Record =>
      RequiredObjectIs(resolved, root, depth - 1);
      if path != [] && path[0] in Declared(resolved) {
        EveryDepth(MemberNode(resolved, path[0]), root, depth - 1, path[1..]);
      }
  }

  // ---- the lookups in terms of the JSON fields ----

  // The schema is a reference to this definition of the root.
  ghost predicate RefersTo(schema: Json, root: Json, target: Json) {
    exists name, definitions ::
      && Field(schema, "$ref") == Some(Text("#/$defs/" + name))
      && Field(root, "$defs") == Some(definitions) && (definitions.Object? || definitions.Array?)
      && Field(definitions, name) == Some(target) && (target.Object? || target.Array?)
  }

  // A reference is followed once, and any other schema, a dangling reference as well,
  // stands for itself.
  lemma {:induction false} DereferenceMeans(schema: Json, root: Json, target: Json)
    ensures RefersTo(schema, root, target) ==> Dereference(schema, root) == target
    ensures (forall x :: !RefersTo(schema, root, x)) ==> Dereference(schema, root) == schema
  {
    if name, definitions :|
      && Field(schema, "$ref") == Some(Text("#/$defs/" + name))
      && Field(root, "$defs") == Some(definitions) && (definitions.Object? || definitions.Array?)
      && Field(definitions, name) == Some(target) && (target.Object? || target.Array?) {
      ReferenceFollowed(schema, root, name, definitions, target);
    }
    if Dereference(schema, root) != schema {
      FollowedReference(schema, root);
    }
    hide Dereference, RefersTo;
  }

  lemma {:induction false} ReferenceFollowed(schema: Json, root: Json, name: string, definitions: Json, target: Json)
    requires Field(schema, "$ref") == Some(Text(PREFIX + name))
    requires Field(root, "$defs") == Some(definitions) && IsObject(definitions)
    requires Field(definitions, name) == Some(target) && IsObject(target)
    ensures Dereference(schema, root) == target
  {
    hide Field;
    assert (PREFIX + name)[|PREFIX|..] == name;
  }

  lemma {:induction false} FollowedReference(schema: Json, root: Json)
    requires Dereference(schema, root) != schema
    ensures RefersTo(schema, root, Dereference(schema, root))
  {
    hide Field;
    var reference := Field(schema, "$ref").value.s;
    assert reference == "#/$defs/" + reference[|PREFIX|..];
  }

  ghost predicate Requires(schema: Json, key: string) {
    exists items :: Field(schema, "required") == Some(Array(items)) && Text(key) in items
  }

  ghost predicate HasProperty(schema: Json, key: string, property: Json) {
    exists properties ::
      && Field(schema, "properties") == Some(properties) && (properties.Object? || properties.Array?)
      && Field(properties, key) == Some(property) && (property.Object? || property.Array?)
  }

  lemma {:induction false} StringsMean(items: seq<Json>, key: string)
    ensures key in Strings(items) <==> Text(key) in items
  {
    if items != [] {
      var n := |items| - 1;
      StringsMean(items[..n], key);
      assert items == items[..n] + [items[n]];
    }
  }

  // The members of a template: the required properties that are declared as objects.
  lemma {:induction false} DeclaredMeans(schema: Json, key: string)
    ensures key in Required(schema) <==> Requires(schema, key)
    ensures forall property :: Property(schema, key) == Some(property) <==> HasProperty(schema, key, property)
    ensures key in Declared(schema) <==> Requires(schema, key) && exists p :: HasProperty(schema, key, p)
  {
    forall items ensures key in Strings(items) <==> Text(key) in items {
      StringsMean(items, key);
    }
    hide Strings, Field;
    assert Property(schema, key).Some? ==> HasProperty(schema, key, Property(schema, key).value);
  }

  // An object that does not say it is the null type.
  ghost predicate Usable(item: Json) {
    (item.Object? || item.Array?) && Field(item, "type") != Some(Text("null"))
  }

  ghost predicate FirstUsable(items: seq<Json>, i: nat, candidate: Json) {
    && i < |items| && items[i] == candidate && Usable(candidate)
    && forall j :: 0 <= j < i ==> !Usable(items[j])
  }

  lemma {:induction false} FirstCandidateMeans(items: seq<Json>, candidate: Json)
    ensures FirstCandidate(items) == Some(candidate) <==> exists i: nat :: FirstUsable(items, i, candidate)
  {
    hide Field;
    if items != [] {
      FirstCandidateMeans(items[1..], candidate);
      if Usable(items[0]) {
        assert FirstUsable(items, 0, items[0]);
      } else {
        assert forall j :: 0 <= j < |items[1..]| ==> items[1..][j] == items[j + 1];
        assert forall j :: 0 < j < |items| ==> items[j] == items[1..][j - 1];
        if i: nat :| FirstUsable(items, i, candidate) {
          assert i > 0 && FirstUsable(items[1..], i - 1, candidate);
        }
        if i: nat :| FirstUsable(items[1..], i, candidate) {
          assert FirstUsable(items, i + 1, candidate);
        }
      }
    }
  }

  // The choice among alternatives is the first usable one.
  lemma {:induction false} CandidateMeans(resolved: Json, candidate: Json)
    ensures Candidate(resolved) == Some(candidate) <==>
            exists items, i: nat :: Field(resolved, "anyOf") == Some(Array(items)) && FirstUsable(items, i, candidate)
  {
    forall items
      ensures FirstCandidate(items) == Some(candidate) <==> exists i: nat :: FirstUsable(items, i, candidate)
    {
      FirstCandidateMeans(items, candidate);
    }
    hide Field, FirstCandidate, FirstUsable;
  }

  // ---- argumentsTemplate ----

  // Object.values($defs), with the key order of the object given.
  function Definitions(schema: Json, order: seq<string>): seq<Json> {
    match Field(schema, "$defs")
    case Some(Array(items)) => items
    case Some(Object(fields)) => ValuesOf(fields, order)
    case _ => []
  }

  function ValuesOf(fields: map<string, Json>, order: seq<string>): seq<Json> {
    if order == [] then []
    else (if order[0] in fields then [fields[order[0]]] else []) + ValuesOf(fields, order[1..])
  }

  // The definitions in the order of their keys.
  lemma {:induction false} DefinitionsMean(schema: Json, fields: map<string, Json>, order: seq<string>)
    requires Field(schema, "$defs") == Some(Object(fields)) && forall k :: k in order ==> k in fields
    ensures |Definitions(schema, order)| == |order|
    ensures forall i :: 0 <= i < |order| ==> Definitions(schema, order)[i] == fields[order[i]]
  {
    ValuesMean(fields, order);
    hide Field;
  }

  lemma {:induction false} ValuesMean(fields: map<string, Json>, order: seq<string>)
    requires forall k :: k in order ==> k in fields
    ensures |ValuesOf(fields, order)| == |order|
    ensures forall i :: 0 <= i < |order| ==> ValuesOf(fields, order)[i] == fields[order[i]]
  {
    if order != [] {
      assert order[0] in order && forall k :: k in order[1..] ==> k in order;
      ValuesMean(fields, order[1..]);
    }
  }

  // properties.operation is an object whose const is the operation.
  predicate Offers(definition: Json, operation: string) {
    var property := Property(definition, "operation");
    property.Some? && Field(property.value, "const") == Some(Text(operation))
  }

  function FirstOffering(definitions: seq<Json>, operation: string): Option<Json> {
    if definitions == [] then None
    else if Offers(definitions[0], operation) then Some(definitions[0])
    else FirstOffering(definitions[1..], operation)
  }

  ghost predicate OffersConst(definition: Json, operation: string) {
    exists p :: HasProperty(definition, "operation", p) && Field(p, "const") == Some(Text(operation))
  }

  ghost predicate FirstOffers(definitions: seq<Json>, i: nat, definition: Json, operation: string) {
    && i < |definitions| && definitions[i] == definition && OffersConst(definition, operation)
    && forall j :: 0 <= j < i ==> !OffersConst(definitions[j], operation)
  }

  // The definition used for an operation is the first whose property `operation` has
  // it as const.
  lemma {:induction false} FirstOfferingMeans(definitions: seq<Json>, operation: string, definition: Json)
    ensures FirstOffering(definitions, operation) == Some(definition) <==>
            exists i: nat :: FirstOffers(definitions, i, definition, operation)
  {
    if definitions != [] {
      var rest := definitions[1..];
      FirstOfferingMeans(rest, operation, definition);
      OffersMeans(definitions[0], operation);
      hide Offers, OffersConst;
      if Offers(definitions[0], operation) {
        assert FirstOffers(definitions, 0, definitions[0], operation);
      } else {
        assert forall j :: 0 <= j < |rest| ==> rest[j] == definitions[j + 1];
        assert forall j :: 0 < j < |definitions| ==> definitions[j] == rest[j - 1];
        if i: nat :| FirstOffers(definitions, i, definition, operation) {
          assert i > 0 && FirstOffers(rest, i - 1, definition, operation);
        }
        if i: nat :| FirstOffers(rest, i, definition, operation) {
          assert FirstOffers(definitions, i + 1, definition, operation);
        }
      }
    }
  }

  lemma {:induction false} OffersMeans(definition: Json, operation: string)
    ensures Offers(definition, operation) <==> OffersConst(definition, operation)
  {
    DeclaredMeans(definition, "operation");
    hide Property, HasProperty, Field;
  }

  function Request(fields: map<string, Value>): map<string, Value> {
    map["request" := Fields(fields)]
  }

  function ArgumentsTemplate(schema: Json, operation: string, order: seq<string>, depth: nat)
    : Option<map<string, Value>>
  {
    if operation == "" then RequiredObject(schema, schema, depth)
    else
      match FirstOffering(Definitions(schema, order), operation)
      case None => Some(Request(map["operation" := Constant(Text(operation))]))
      case Some(definition) =>
        var fields := RequiredObject(definition, schema, depth);
        if fields.None? then None else Some(Request(fields.value))
  }

  method BuildArguments(schema: Json, operation: string, order: seq<string>, depth: nat)
    returns (r: Option<map<string, Value>>)
    ensures r == ArgumentsTemplate(schema, operation, order, depth)
  {
    if operation == "" {
      r := FillRequired(schema, schema, depth);
      return;
    }
    var definitions := Definitions(schema, order);
    for i := 0 to |definitions|
      invariant FirstOffering(definitions, operation) == FirstOffering(definitions[i..], operation)
    {
      if Offers(definitions[i], operation) {
        var fields := FillRequired(definitions[i], schema, depth);
        return if fields.None? then None else Some(Request(fields.value));
      }
    }
    return Some(Request(map["operation" := Constant(Text(operation))]));
  }

  ghost predicate Carries(arguments: map<string, Value>, operation: string) {
    && "request" in arguments && arguments["request"].Fields?
    && "operation" in arguments["request"].fields
    && arguments["request"].fields["operation"] == Constant(Text(operation))
  }

  // The schema at the end of the chain of $ref and anyOf from n has that const.
  predicate EndsInConst(n: Node, root: Json, depth: nat, text: string) {
    var end := SchemaAt(n, root, [], depth);
    end.Some? && Field(Dereference(end.value.schema, root), "const") == Some(Text(text))
  }

  lemma {:induction false} ConstDecides(n: Node, root: Json, depth: nat, text: string)
    requires Placeholder(n, root, depth).Some? && !SpecialKey(n.key) && text != ""
    ensures Placeholder(n, root, depth) == Some(Constant(Text(text))) <==> EndsInConst(n, root, depth, text)
    decreases depth
  {
    hide Dereference, Candidate, Field;
    match ShapeOf(n, root)
    case Leaf(_) =>
    case Choice(candidate) => ConstDecides(Node(candidate, n.key), root, depth - 1, text);
    case Record =>
  }

  // The request names the chosen operation exactly when no definition offers it,
  // or the first that does requires the property and the chain of $ref and anyOf
  // from the property ends in the operation as const. A definition that merely
  // declares the property loses the operation, and so does a reference that leads
  // elsewhere.
  lemma {:induction false} RequestCarriesOperation(schema: Json, operation: string, order: seq<string>, depth: nat)
    requires operation != "" && ArgumentsTemplate(schema, operation, order, depth).Some?
    ensures var offering := FirstOffering(Definitions(schema, order), operation);
            && (offering.Some? ==> Property(offering.value, "operation").Some?)
            && (Carries(ArgumentsTemplate(schema, operation, order, depth).value, operation) <==>
                (offering.Some? ==>
                   && "operation" in Required(offering.value)
                   && EndsInConst(MemberNode(offering.value, "operation"), schema, depth, operation)))
  {
    var offering := FirstOffering(Definitions(schema, order), operation);
    if offering.Some? {
      FirstOfferingOffers(Definitions(schema, order), operation);
      RequiredObjectIs(offering.value, schema, depth);
      hide Property, Required, Placeholder, RequiredObject, FirstOffering, Dereference, EndsInConst;
      if "operation" in Declared(offering.value) {
        ConstDecides(MemberNode(offering.value, "operation"), schema, depth, operation);
      }
    }
  }

  // A property that is written out ends in its own const, so there only the list
  // of required names decides.
  lemma {:induction false} InlineEndsInConst(definition: Json, schema: Json, depth: nat, operation: string)
    requires Offers(definition, operation) && depth > 0
    requires Dereference(Property(definition, "operation").value, schema) == Property(definition, "operation").value
    ensures EndsInConst(MemberNode(definition, "operation"), schema, depth, operation)
  {
    hide Dereference, Field, Candidate;
  }

  // ---- schemas on which the template fails ----

  function Single(key: string, value: Json): Json {
    Object(map[key := value])
  }

  function Defs(name: string, definition: Json): Json {
    Single("$defs", Single(name, definition))
  }

  // A definition that chooses itself through anyOf.
  lemma {:induction false} SelfReferenceDiverges(key: string)
    requires !SpecialKey(key)
    ensures var reference := Single("$ref", Text("#/$defs/A"));
            !Terminates(Node(reference, key), Defs("A", Single("anyOf", Array([reference]))))
  {
    var reference := Single("$ref", Text("#/$defs/A"));
    var definition := Single("anyOf", Array([reference]));
    var root := Defs("A", definition);
    var n := Node(reference, key);
    assert "#/$defs/A" == PREFIX + "A" && (PREFIX + "A")[|PREFIX|..] == "A";
    assert Dereference(reference, root) == definition;
    assert Candidate(definition) == Some(reference);
    assert Calls(n, root) == {n};
    hide Calls;
    assert From([n, n], n, root) && [n, n][0] == [n, n][1];
    assert Repeats([n, n]);
    TerminatesIffAcyclic(n, root);
  }

  // A definition that declares the operation without requiring it.
  lemma {:induction false} OptionalOperationIsLost(depth: nat)
    ensures var definition := Single("properties", Single("operation", Single("const", Text("op"))));
            var r := ArgumentsTemplate(Defs("D", definition), "op", ["D"], depth);
            r.Some? && !Carries(r.value, "op")
  {
    var definition := Single("properties", Single("operation", Single("const", Text("op"))));
    var schema := Defs("D", definition);
    assert ["D"][1..] == [];
    assert Definitions(schema, ["D"]) == [definition];
    assert Required(definition) == [] && Members(definition) == {};
    assert RequiredObject(definition, schema, depth).Some?;
    RequestCarriesOperation(schema, "op", ["D"], depth);
  }

  // A definition that requires the operation as a reference with a const beside
  // it: the const is what offers the operation, the reference is what is followed.
  function Diverted(): Json {
    Object(map["properties" := Single("operation", Object(map["const" := Text("op"), "$ref" := Text("#/$defs/X")])),
               "required" := Array([Text("operation")])])
  }

  function DivertedSchema(): Json {
    Single("$defs", Object(map["D" := Diverted(), "X" := Single("const", Text("other"))]))
  }

  lemma {:induction false} DivertedMember()
    ensures Offers(Diverted(), "op") && Required(Diverted()) == ["operation"]
    ensures ShapeOf(MemberNode(Diverted(), "operation"), DivertedSchema()) == Leaf(Constant(Text("other")))
  {
    assert "#/$defs/X" == PREFIX + "X" && (PREFIX + "X")[|PREFIX|..] == "X";
    assert Strings([Text("operation")]) == ["operation"];
    var property := Property(Diverted(), "operation").value;
    assert Dereference(property, DivertedSchema()) == Single("const", Text("other"));
  }

  lemma {:induction false} ReferencedOperationIsLost(depth: nat)
    requires depth > 0
    ensures var r := ArgumentsTemplate(DivertedSchema(), "op", ["D", "X"], depth);
            r.Some? && !Carries(r.value, "op")
  {
    var schema, definition := DivertedSchema(), Diverted();
    DivertedMember();
    assert ["D", "X"][1..] == ["X"];
    assert Definitions(schema, ["D", "X"])[0] == definition;
    var n := MemberNode(definition, "operation");
    hide ShapeOf, Offers;
    assert Members(definition) == {n};
    RequiredObjectIs(definition, schema, depth);
    assert Placeholder(n, schema, depth) == Some(Constant(Text("other")));
    assert FirstOffering(Definitions(schema, ["D", "X"]), "op") == Some(definition);
  }

  lemma {:induction false} FirstOfferingOffers(definitions: seq<Json>, operation: string)
    ensures FirstOffering(definitions, operation).Some? ==>
              Offers(FirstOffering(definitions, operation).value, operation)
  {
    if definitions != [] {
      FirstOfferingOffers(definitions[1..], operation);
    }
  }

  // The whole template returns exactly when every required member does.
  lemma {:induction false} TemplateTerminates(schema: Json, root: Json)
    ensures (exists depth :: RequiredObject(schema, root, depth).Some?) <==>
            (forall c :: c in Members(schema) ==> Acyclic(c, root))
  {
    if exists depth :: RequiredObject(schema, root, depth).Some? {
      var depth :| RequiredObject(schema, root, depth).Some?;
      RequiredObjectIs(schema, root, depth);
      forall c | c in Members(schema) ensures Acyclic(c, root) {
        TerminatesAcyclic(c, root, depth);
      }
    }
    if forall c :: c in Members(schema) ==> Acyclic(c, root) {
      var depth := CommonDepth(Members(schema), root);
      RequiredObjectIs(schema, root, depth);
    }
  }

  lemma {:induction false} CommonDepth(nodes: set<Node>, root: Json) returns (depth: nat)
    requires forall c :: c in nodes ==> Acyclic(c, root)
    ensures AllReturn(nodes, root, depth)
  {
    hide Placeholder, Acyclic, Nodes;
    if nodes == {} {
      depth := 0;
    } else {
      var n :| n in nodes;
      var rest := CommonDepth(nodes - {n}, root);
      TerminatesIffAcyclic(n, root);
      depth := rest + |Nodes(n, root)|;
      forall c | c in nodes ensures Placeholder(c, root, depth).Some? {
        DeeperIsSame(c, root, if c == n then |Nodes(n, root)| else rest, depth);
      }
    }
  }
}
