// _scan_javascript_file of scripts/audit_capabilities.py on the stripped text,
// with the string literals and the first match of the operation pattern given.
module SourceScanner {
  import opened Wrappers
  import opened CommentStripper

  datatype Literal = Literal(start: nat, end: nat, value: string)

  // operations_by_capability; None stands for a direct call.
  type Operations = map<string, set<Option<string>>>

  // re.search: where group 1 of the first match starts, and its text.
  type Search = string -> Option<(nat, string)>

  datatype Reference = Reference(line: nat, capability: string, operation: Option<string>)

  // What finditer and search give: literals in order inside the text, and a
  // match inside the text searched.
  ghost predicate LiteralsOk(source: string, literals: seq<Literal>) {
    && (forall i :: 0 <= i < |literals| ==> literals[i].start < literals[i].end <= |source|)
    && (forall i, j :: 0 <= i < j < |literals| ==> literals[i].end <= literals[j].start)
  }

  ghost predicate SearchOk(search: Search) {
    forall t :: search(t).Some? ==> Matches(t, search(t).value)
  }

  // A nonempty name standing at the offset.
  ghost predicate Matches(t: string, found: (nat, string)) {
    found.0 < |t| && found.1 != "" && found.1 <= t[found.0..]
  }

  const REACH := 512

  // The start of the first later literal that names a capability.
  function NextCapability(source: string, literals: seq<Literal>, operations: Operations): (r: nat)
    ensures r == |source| ||
            exists i :: 0 <= i < |literals| && literals[i].value in operations && r == literals[i].start
  {
    if literals == [] then |source|
    else if literals[0].value in operations then literals[0].start
    else
      assert forall i :: 0 <= i < |literals[1..]| ==> literals[1..][i] == literals[i + 1];
      NextCapability(source, literals[1..], operations)
  }

  function LineEnd(source: string, at: nat): (r: nat)
    requires at <= |source|
    ensures at <= r <= |source|
    ensures forall i :: at <= i < r ==> source[i] != '\n'
    decreases |source| - at
  {
    if at == |source| || source[at] == '\n' then at else LineEnd(source, at + 1)
  }

  function ContextEnd(end: nat, next: nat): nat {
    if next <= end + REACH then next else end + REACH
  }

  function Find(source: string, from: nat, to: nat, search: Search): Option<(nat, string)>
    requires from <= to <= |source|
  {
    match search(source[from..to])
    case None => None
    case Some((offset, name)) => Some((from + offset, name))
  }

  // The operation searched for a capability literal: in its context, else on
  // the rest of its line.
  function FindOperation(source: string, end: nat, next: nat, search: Search): Option<(nat, string)>
    requires end <= next <= |source|
  {
    var inContext := Find(source, end, ContextEnd(end, next), search);
    if inContext.Some? then inContext else Find(source, end, LineEnd(source, end), search)
  }

  // The offsets one literal is recorded for.
  function Offsets(
      source: string, literals: seq<Literal>, i: nat, operations: Operations, search: Search)
    : set<(nat, Option<string>)>
    requires i < |literals| && LiteralsOk(source, literals)
  {
    var l := literals[i];
    if l.value !in operations then {}
    else
      NextIsLater(source, literals, i, operations);
      var next := NextCapability(source, literals[i + 1..], operations);
      var found := FindOperation(source, l.end, next, search);
      (if None in operations[l.value] then {(l.start, None)} else {})
      + (if found.Some? && Some(found.value.1) in operations[l.value]
         then {(found.value.0, Some(found.value.1))} else {})
  }

  lemma {:induction false} NextIsLater(source: string, literals: seq<Literal>, i: nat, operations: Operations)
    requires i < |literals| && LiteralsOk(source, literals)
    ensures literals[i].end <= NextCapability(source, literals[i + 1..], operations) <= |source|
  {
    var rest := literals[i + 1..];
    var next := NextCapability(source, rest, operations);
    if next != |source| {
      var k :| 0 <= k < |rest| && rest[k].value in operations && next == rest[k].start;
      assert rest[k] == literals[i + 1 + k];
    }
  }

  function Lines(source: string, capability: string, offsets: set<(nat, Option<string>)>): set<Reference> {
    set o | o in offsets && o.0 <= |source| :: Reference(LineNumber(source, o.0), capability, o.1)
  }

  function Scanned(
      source: string, literals: seq<Literal>, count: nat, operations: Operations, search: Search): set<Reference>
    requires count <= |literals| && LiteralsOk(source, literals)
  {
    if count == 0 then {}
    else
      Scanned(source, literals, count - 1, operations, search)
      + Lines(source, literals[count - 1].value, Offsets(source, literals, count - 1, operations, search))
  }

  // ---- what the set of references means for the file `raw` that was read ----

  // The context of a literal stops 512 characters on, where the next literal of a
  // capability starts, or at the end of the text, whatever comes first.
  ghost predicate ContextStops(source: string, literals: seq<Literal>, i: nat, operations: Operations, to: nat)
    requires i < |literals|
  {
    var end := literals[i].end;
    && end <= to <= |source| && to <= end + 512
    && (forall k :: i < k < |literals| && literals[k].value in operations ==> to <= literals[k].start)
    && (|| to == |source| || to == end + 512
        || exists k :: i < k < |literals| && literals[k].value in operations && to == literals[k].start)
  }

  ghost predicate LineStops(source: string, from: nat, to: nat) {
    && from <= to <= |source|
    && (forall k :: from <= k < to ==> source[k] != '\n')
    && (to == |source| || source[to] == '\n')
  }

  // The first match in the context of literal i, or else on the rest of its line, is
  // this text at this offset.
  ghost predicate Names(
      source: string, literals: seq<Literal>, i: nat, operations: Operations, search: Search, at: nat, name: string)
    requires i < |literals|
  {
    exists to, eol ::
      && ContextStops(source, literals, i, operations, to) && LineStops(source, literals[i].end, eol)
      && Hit(source, literals[i].end, to, eol, search) == Some((at, name))
  }

  ghost function Hit(source: string, end: nat, to: nat, eol: nat, search: Search): Option<(nat, string)>
    requires end <= to <= |source| && end <= eol <= |source|
  {
    match (search(source[end..to]), search(source[end..eol]))
    case (Some(hit), _) => Some((end + hit.0, hit.1))
    case (None, Some(hit)) => Some((end + hit.0, hit.1))
    case (None, None) => None
  }

  // A reference stands for a literal that names its capability: either the capability
  // can be called directly, or the operation is a known one that the literal's
  // surroundings name. Its line is the line that the literal, or the name of the
  // operation, has in the file.
  ghost predicate Stands(
      raw: string, literals: seq<Literal>, operations: Operations, search: Search, r: Reference, i: nat, at: nat)
    requires i < |literals|
  {
    var source := Strip(raw);
    && literals[i].value == r.capability && r.capability in operations && r.operation in operations[r.capability]
    && at < |source|
    && (r.operation.None? ==> at == literals[i].start)
    && (r.operation.Some? ==>
          Names(source, literals, i, operations, search, at, r.operation.value) && r.operation.value <= source[at..])
    && OriginalLine(raw, at, r.line)
  }

  // `line` is the line of the character of the file that was kept at offset `at`:
  // CodeAt lists, in order, where the kept characters stand in the file.
  ghost predicate OriginalLine(raw: string, at: nat, line: nat)
    requires at < |Strip(raw)|
  {
    && |CodeAt(raw, 0)| == |Strip(raw)| && CodeAt(raw, 0)[at] < |raw|
    && line == LineNumber(raw, CodeAt(raw, 0)[at])
  }

  ghost predicate Refers(
      raw: string, literals: seq<Literal>, operations: Operations, search: Search, r: Reference) {
    exists i: nat, at: nat :: i < |literals| && Stands(raw, literals, operations, search, r, i, at)
  }

  method ScanJavascript(raw: string, literals: seq<Literal>, operations: Operations, search: Search)
    returns (refs: set<Reference>)
    requires LiteralsOk(Strip(raw), literals) && SearchOk(search)
    ensures forall r :: r in refs <==> Refers(raw, literals, operations, search, r)
  {
    var source := StripJsComments(raw);
    refs := {};
    for i := 0 to |literals|
      invariant refs == Scanned(source, literals, i, operations, search)
    {
      var found := ScanLiteral(source, literals, i, operations, search);
      refs := refs + found;
    }
    forall r ensures r in refs <==> Refers(raw, literals, operations, search, r) {
      ScannedMeans(raw, literals, operations, search, r);
    }
  }

  // One turn of the loop over the literals.
  method ScanLiteral(source: string, literals: seq<Literal>, i: nat, operations: Operations, search: Search)
    returns (refs: set<Reference>)
    requires i < |literals| && LiteralsOk(source, literals) && SearchOk(search)
    ensures refs == Lines(source, literals[i].value, Offsets(source, literals, i, operations, search))
  {
    var l := literals[i];
    if l.value !in operations {
      return {};
    }
    var direct: set<Reference> := {};
    if None in operations[l.value] {
      direct := {Reference(LineNumber(source, l.start), l.value, None)};
    }
    NextIsLater(source, literals, i, operations);
    var next := NextCapability(source, literals[i + 1..], operations);
    FoundInside(source, l.end, next, search);
    var found := FindOperation(source, l.end, next, search);
    var named: set<Reference> := {};
    if found.Some? && Some(found.value.1) in operations[l.value] {
      named := {Reference(LineNumber(source, found.value.0), l.value, Some(found.value.1))};
    }
    OneLiteral(source, literals, i, operations, search, direct, named);
    refs := direct + named;
  }

  lemma {:induction false} OneLiteral(
      source: string, literals: seq<Literal>, i: nat, operations: Operations, search: Search,
      direct: set<Reference>, named: set<Reference>)
    requires i < |literals| && LiteralsOk(source, literals) && literals[i].value in operations
    requires SearchOk(search)
    requires var l := literals[i];
             direct == if None in operations[l.value]
                       then {Reference(LineNumber(source, l.start), l.value, None)} else {}
    requires literals[i].end <= NextCapability(source, literals[i + 1..], operations) <= |source|
    requires var l := literals[i];
             var found := FindOperation(source, l.end, NextCapability(source, literals[i + 1..], operations), search);
             && (found.Some? ==> found.value.0 < |source|)
             && named == if found.Some? && Some(found.value.1) in operations[l.value]
                         then {Reference(LineNumber(source, found.value.0), l.value, Some(found.value.1))} else {}
    ensures Lines(source, literals[i].value, Offsets(source, literals, i, operations, search)) == direct + named
  {
    hide NextCapability, FindOperation, LineNumber;
    var l := literals[i];
    var found := FindOperation(source, l.end, NextCapability(source, literals[i + 1..], operations), search);
    var offsets := Offsets(source, literals, i, operations, search);
    if None in operations[l.value] {
      assert (l.start, None) in offsets;
    }
    if found.Some? && Some(found.value.1) in operations[l.value] {
      assert (found.value.0, Some(found.value.1)) in offsets;
    }
  }

  // Where an operation may be taken from: within reach and before the next
  // capability, or on the line on which the capability literal ends.
  lemma {:induction false} FoundInside(source: string, end: nat, next: nat, search: Search)
    requires end <= next <= |source| && SearchOk(search)
    ensures var found := FindOperation(source, end, next, search);
            found.Some? ==>
              && end <= found.value.0 < |source| && found.value.1 <= source[found.value.0..]
              && (found.value.0 < ContextEnd(end, next)
                  || (forall i :: end <= i <= found.value.0 ==> source[i] != '\n'))
  {
    FoundText(source, end, ContextEnd(end, next), search);
    FoundText(source, end, LineEnd(source, end), search);
  }

  lemma {:induction false} FoundText(source: string, from: nat, to: nat, search: Search)
    requires from <= to <= |source| && SearchOk(search)
    ensures var found := Find(source, from, to, search);
            found.Some? ==> from <= found.value.0 < to && found.value.1 <= source[found.value.0..]
  {
    var part := source[from..to];
    if search(part).Some? {
      var (offset, name) := search(part).value;
      assert Matches(part, (offset, name));
      assert source[from + offset..][..|name|] == part[offset..][..|name|];
    }
  }

  // ---- the offsets of a literal are those its surroundings give ----

  lemma {:induction false} ContextIsThat(source: string, literals: seq<Literal>, i: nat, operations: Operations)
    requires i < |literals| && LiteralsOk(source, literals)
    ensures var next := NextCapability(source, literals[i + 1..], operations);
            ContextStops(source, literals, i, operations, ContextEnd(literals[i].end, next))
  {
    var next := NextCapability(source, literals[i + 1..], operations);
    NextIsLater(source, literals, i, operations);
    FirstCapability(source, literals[i + 1..], operations);
    Shifted(literals, i);
    hide NextCapability, LiteralsOk;
    forall k | i < k < |literals| && literals[k].value in operations ensures next <= literals[k].start {
      assert literals[i + 1..][k - i - 1] == literals[k];
    }
  }

  lemma {:induction false} Shifted(literals: seq<Literal>, i: nat)
    requires i < |literals|
    ensures var rest := literals[i + 1..]; forall k :: 0 <= k < |rest| ==> rest[k] == literals[i + 1 + k]
  {
  }

  lemma {:induction false} FirstCapability(source: string, literals: seq<Literal>, operations: Operations)
    requires LiteralsOk(source, literals)
    ensures var next := NextCapability(source, literals, operations);
            && (forall k :: 0 <= k < |literals| && literals[k].value in operations ==> next <= literals[k].start)
            && (next == |source|
                || exists k :: 0 <= k < |literals| && literals[k].value in operations && next == literals[k].start)
  {
    if literals != [] && literals[0].value !in operations {
      assert forall k :: 0 <= k < |literals[1..]| ==> literals[1..][k] == literals[k + 1];
      FirstCapability(source, literals[1..], operations);
      forall k | 0 <= k < |literals| && literals[k].value in operations
        ensures NextCapability(source, literals, operations) <= literals[k].start
      {
        assert literals[k] == literals[1..][k - 1];
      }
    }
  }

  lemma {:induction false} FindIsNames(
      source: string, literals: seq<Literal>, i: nat, operations: Operations, search: Search, at: nat, name: string)
    requires i < |literals| && LiteralsOk(source, literals)
    requires literals[i].end <= NextCapability(source, literals[i + 1..], operations) <= |source|
    ensures var next := NextCapability(source, literals[i + 1..], operations);
            FindOperation(source, literals[i].end, next, search) == Some((at, name)) <==>
            Names(source, literals, i, operations, search, at, name)
  {
    var end := literals[i].end;
    var next := NextCapability(source, literals[i + 1..], operations);
    var to, eol := ContextEnd(end, next), LineEnd(source, end);
    ContextIsThat(source, literals, i, operations);
    LineIsThat(source, end);
    assert FindOperation(source, end, next, search) == Hit(source, end, to, eol, search);
    hide NextCapability, FindOperation, LineEnd, ContextEnd, Hit, LiteralsOk, Names;
    NamesOnce(source, literals, i, operations, search, to, eol, at, name);
  }

  // Where the context and the line stop is determined.
  lemma {:induction false} NamesOnce(
      source: string, literals: seq<Literal>, i: nat, operations: Operations, search: Search, to: nat, eol: nat,
      at: nat, name: string)
    requires i < |literals|
    requires ContextStops(source, literals, i, operations, to) && LineStops(source, literals[i].end, eol)
    ensures Names(source, literals, i, operations, search, at, name) <==>
            Hit(source, literals[i].end, to, eol, search) == Some((at, name))
  {
    hide Hit;
    if Names(source, literals, i, operations, search, at, name) {
      var to', eol' :|
        && ContextStops(source, literals, i, operations, to') && LineStops(source, literals[i].end, eol')
        && Hit(source, literals[i].end, to', eol', search) == Some((at, name));
      OneLine(source, literals[i].end, eol, eol');
      OneContext(source, literals, i, operations, to, to');
    }
  }

  lemma {:induction false} LineIsThat(source: string, from: nat)
    requires from <= |source|
    ensures LineStops(source, from, LineEnd(source, from))
    decreases |source| - from
  {
    if from < |source| && source[from] != '\n' {
      LineIsThat(source, from + 1);
    }
  }

  lemma {:induction false} OneLine(source: string, from: nat, a: nat, b: nat)
    requires LineStops(source, from, a) && LineStops(source, from, b)
    ensures a == b
  {
  }

  lemma {:induction false} OneContext(
      source: string, literals: seq<Literal>, i: nat, operations: Operations, a: nat, b: nat)
    requires i < |literals|
    requires ContextStops(source, literals, i, operations, a) && ContextStops(source, literals, i, operations, b)
    ensures a == b
  {
  }

  lemma {:induction false} OffsetMeans(
      raw: string, literals: seq<Literal>, operations: Operations, search: Search, i: nat, o: (nat, Option<string>))
    requires LiteralsOk(Strip(raw), literals) && SearchOk(search) && i < |literals|
    ensures o in Offsets(Strip(raw), literals, i, operations, search) <==>
            && literals[i].value in operations && o.1 in operations[literals[i].value]
            && (o.1.None? ==> o.0 == literals[i].start)
            && (o.1.Some? ==> Names(Strip(raw), literals, i, operations, search, o.0, o.1.value))
    ensures o in Offsets(Strip(raw), literals, i, operations, search) ==>
              o.0 < |Strip(raw)| && (o.1.Some? ==> o.1.value <= Strip(raw)[o.0..])
  {
    var source := Strip(raw);
    var l := literals[i];
    NextIsLater(source, literals, i, operations);
    FoundInside(source, l.end, NextCapability(source, literals[i + 1..], operations), search);
    if o.1.Some? {
      FindIsNames(source, literals, i, operations, search, o.0, o.1.value);
    }
    hide NextCapability, FindOperation, Strip, Names;
  }

  lemma {:induction false} ScannedMembers(
      source: string, literals: seq<Literal>, n: nat, operations: Operations, search: Search, r: Reference)
    requires LiteralsOk(source, literals) && n <= |literals|
    ensures r in Scanned(source, literals, n, operations, search) <==>
            exists i: nat, at: nat ::
              && i < n && (at, r.operation) in Offsets(source, literals, i, operations, search)
              && at <= |source| && r == Reference(LineNumber(source, at), literals[i].value, r.operation)
  {
    hide Offsets, LineNumber, LiteralsOk;
    if n > 0 {
      ScannedMembers(source, literals, n - 1, operations, search, r);
      var last := Lines(source, literals[n - 1].value, Offsets(source, literals, n - 1, operations, search));
      if r in last {
        var o :| o in Offsets(source, literals, n - 1, operations, search) && o.0 <= |source|
                 && r == Reference(LineNumber(source, o.0), literals[n - 1].value, o.1);
        assert (o.0, r.operation) in Offsets(source, literals, n - 1, operations, search);
      }
    }
  }

  // The references of the whole file, both ways.
  lemma {:induction false} ScannedMeans(
      raw: string, literals: seq<Literal>, operations: Operations, search: Search, r: Reference)
    requires LiteralsOk(Strip(raw), literals) && SearchOk(search)
    ensures r in Scanned(Strip(raw), literals, |literals|, operations, search) <==>
            Refers(raw, literals, operations, search, r)
  {
    hide Offsets, LiteralsOk, Strip, LineNumber, Scanned, Names, Stands;
    ScannedMembers(Strip(raw), literals, |literals|, operations, search, r);
    forall i: nat, at: nat | i < |literals|
      ensures Stands(raw, literals, operations, search, r, i, at) <==>
              && (at, r.operation) in Offsets(Strip(raw), literals, i, operations, search)
              && at <= |Strip(raw)| && r == Reference(LineNumber(Strip(raw), at), literals[i].value, r.operation)
    {
      StandsMeans(raw, literals, operations, search, r, i, at);
    }
  }

  lemma {:induction false} StandsMeans(
      raw: string, literals: seq<Literal>, operations: Operations, search: Search, r: Reference, i: nat, at: nat)
    requires LiteralsOk(Strip(raw), literals) && SearchOk(search) && i < |literals|
    ensures Stands(raw, literals, operations, search, r, i, at) <==>
            && (at, r.operation) in Offsets(Strip(raw), literals, i, operations, search)
            && at <= |Strip(raw)| && r == Reference(LineNumber(Strip(raw), at), literals[i].value, r.operation)
  {
    OffsetMeans(raw, literals, operations, search, i, (at, r.operation));
    hide Offsets, LiteralsOk, Strip, LineNumber, Names;
    if at < |Strip(raw)| {
      RecordedLineIsOriginal(raw, at);
    }
  }
}
