// ObservedProvider of scripts/evaluate_note_models.py: counters and lists kept
// around every provider call of one attempt, which awaits each call before the
// next.
module ObservedProvider {
  import opened Wrappers
  import opened AttemptLog

  // content of the last message when it is text
  datatype Request = Request(lastText: Option<string>)

  // What the wrapped provider does; ProviderError is a TradingPartnerError, Other
  // any other exception, a cancellation included.
  datatype Reply = Response(model: string, usage: Option<nat>) | ProviderError(retryable: bool) | Other

  datatype Round = Round(request: Request, reply: Reply)

  const REPAIR_PREFIX := "\U{4E0A}\U{4E00}\U{6B21}\U{63D0}\U{4EA4}\U{672A}\U{88AB}\U{63A5}\U{53D7}\U{FF08}"
  const CODE_PREFIX := "NOTE_INTERPRETATION_"
  const CLOSE := '\U{FF09}'

  predicate CodeChar(c: char) {
    'A' <= c <= 'Z' || '0' <= c <= '9' || c == '_'
  }

  // The length of the longest run of code characters at the start.
  function CodeRun(s: string): nat {
    if s != [] && CodeChar(s[0]) then 1 + CodeRun(s[1..]) else 0
  }

  // REPAIR_ERROR.match(content), group 1
  function RepairCode(content: string): Option<string> {
    var prefix := REPAIR_PREFIX + CODE_PREFIX;
    if !(prefix <= content) then None
    else
      var rest := content[|prefix|..];
      var n := CodeRun(rest);
      CodeRunFits(rest);
      if 1 <= n <= 108 && n < |rest| && rest[n] == CLOSE then Some(CODE_PREFIX + rest[..n]) else None
  }

  lemma {:induction false} CodeRunFits(s: string)
    ensures CodeRun(s) <= |s|
    ensures forall i :: 0 <= i < CodeRun(s) ==> CodeChar(s[i])
    ensures CodeRun(s) < |s| ==> !CodeChar(s[CodeRun(s)])
  {
    if s != [] && CodeChar(s[0]) {
      CodeRunFits(s[1..]);
      forall i | 0 <= i < CodeRun(s) ensures CodeChar(s[i]) {
        assert i > 0 ==> s[i] == s[1..][i - 1];
      }
    }
  }

  // 1 to 108 upper-case letters, digits and underscores.
  ghost predicate IsCode(code: string) {
    && 1 <= |code| <= 108
    && forall i :: 0 <= i < |code| ==> 'A' <= code[i] <= 'Z' || '0' <= code[i] <= '9' || code[i] == '_'
  }

  lemma {:induction false} CodeAfterPrefix(rest: string, code: string)
    ensures RepairCode(REPAIR_PREFIX + CODE_PREFIX + rest) == Some(CODE_PREFIX + code) <==>
            IsCode(code) && code + [CLOSE] <= rest
  {
    var prefix := REPAIR_PREFIX + CODE_PREFIX;
    assert (prefix + rest)[|prefix|..] == rest;
    CodeRunFits(rest);
    hide CodeRun, CodeChar;
    var n := CodeRun(rest);
    if IsCode(code) && code + [CLOSE] <= rest {
      RunOfCode(rest, code);
      assert rest[..n] == (code + [CLOSE])[..n] == code;
    }
    if RepairCode(prefix + rest) == Some(CODE_PREFIX + code) {
      assert (CODE_PREFIX + code)[|CODE_PREFIX|..] == code;
      assert (CODE_PREFIX + rest[..n])[|CODE_PREFIX|..] == rest[..n];
      assert rest[..n + 1] == code + [CLOSE];
    }
  }

  // Exactly the texts of the given form match, with the code as the group: the
  // bounded repetition never has to give a character back. Nothing else matches.
  lemma {:induction false} RepairCodeIff(content: string, group: string)
    ensures RepairCode(content) == Some(group) <==>
            exists code, tail ::
              && IsCode(code) && group == "NOTE_INTERPRETATION_" + code
              && content ==
                 "\U{4E0A}\U{4E00}\U{6B21}\U{63D0}\U{4EA4}\U{672A}\U{88AB}\U{63A5}\U{53D7}\U{FF08}"
                 + "NOTE_INTERPRETATION_" + code + "\U{FF09}" + tail
  {
    hide IsCode, CodeRun;
    if RepairCode(content) == Some(group) {
      var code, tail := MatchedParts(content, group);
      assert content == REPAIR_PREFIX + CODE_PREFIX + code + [CLOSE] + tail;
    }
    if code, tail :| IsCode(code) && group == CODE_PREFIX + code
                     && content == REPAIR_PREFIX + CODE_PREFIX + code + [CLOSE] + tail {
      hide RepairCode;
      assert content == REPAIR_PREFIX + CODE_PREFIX + (code + [CLOSE] + tail);
      assert code + [CLOSE] <= code + [CLOSE] + tail;
      CodeAfterPrefix(code + [CLOSE] + tail, code);
    }
  }

  lemma {:induction false} MatchedParts(content: string, group: string) returns (code: string, tail: string)
    requires RepairCode(content) == Some(group)
    ensures IsCode(code) && group == CODE_PREFIX + code
    ensures content == REPAIR_PREFIX + CODE_PREFIX + code + [CLOSE] + tail
  {
    var prefix := REPAIR_PREFIX + CODE_PREFIX;
    var rest := content[|prefix|..];
    var n := CodeRun(rest);
    CodeRunFits(rest);
    hide CodeRun;
    code, tail := rest[..n], rest[n + 1..];
    assert rest == code + [CLOSE] + tail;
    assert content == prefix + rest;
  }

  lemma {:induction false} RunOfCode(rest: string, code: string)
    requires forall i :: 0 <= i < |code| ==> CodeChar(code[i])
    requires code + [CLOSE] <= rest
    ensures CodeRun(rest) == |code|
  {
    if code == [] {
      assert rest[0] == CLOSE;
    } else {
      assert rest[0] == code[0];
      assert code[1..] + [CLOSE] == (code + [CLOSE])[1..];
      RunOfCode(rest[1..], code[1..]);
    }
  }

  // ---- what the lists hold, from the history of the attempt ----

  function FailuresOf(rounds: seq<Round>): seq<Failure> {
    if rounds == [] then []
    else
      var n := |rounds| - 1;
      FailuresOf(rounds[..n])
      + if rounds[n].reply.ProviderError? then [Failure(n + 1, rounds[n].reply.retryable)] else []
  }

  function ModelsOf(rounds: seq<Round>): seq<string> {
    if rounds == [] then []
    else
      var n := |rounds| - 1;
      ModelsOf(rounds[..n]) + if rounds[n].reply.Response? then [rounds[n].reply.model] else []
  }

  // request_snapshots
  function RequestsOf(rounds: seq<Round>): seq<Request> {
    if rounds == [] then [] else RequestsOf(rounds[..|rounds| - 1]) + [rounds[|rounds| - 1].request]
  }

  function HashesOf(digest: Request -> string, rounds: seq<Round>): seq<string> {
    if rounds == [] then []
    else HashesOf(digest, rounds[..|rounds| - 1]) + [digest(rounds[|rounds| - 1].request)]
  }

  // response_snapshots
  function ResponsesOf(rounds: seq<Round>): seq<Reply> {
    if rounds == [] then []
    else
      var n := |rounds| - 1;
      ResponsesOf(rounds[..n]) + if rounds[n].reply.Response? then [rounds[n].reply] else []
  }

  function UsageOf(rounds: seq<Round>): seq<Option<nat>> {
    if rounds == [] then []
    else
      var n := |rounds| - 1;
      UsageOf(rounds[..n]) + if rounds[n].reply.Response? then [rounds[n].reply.usage] else []
  }

  function OthersOf(rounds: seq<Round>): nat {
    if rounds == [] then 0
    else
      var n := |rounds| - 1;
      OthersOf(rounds[..n]) + if rounds[n].reply.Other? then 1 else 0
  }

  // The repair message answered by the call after the rejected one.
  function RepairAt(rounds: seq<Round>, n: nat): Option<string>
    requires n < |rounds|
  {
    if n == 0 || rounds[n].request.lastText.None? then None else RepairCode(rounds[n].request.lastText.value)
  }

  function RepairsOf(rounds: seq<Round>): seq<Repair> {
    if rounds == [] then []
    else
      var n := |rounds| - 1;
      RepairsOf(rounds[..n]) + if RepairAt(rounds, n).Some? then [Repair(n, RepairAt(rounds, n).value)] else []
  }

  lemma {:induction false} OneMoreRound(rounds: seq<Round>, r: Round)
    ensures var after := rounds + [r];
            && FailuresOf(after) == FailuresOf(rounds)
               + (if r.reply.ProviderError? then [Failure(|rounds| + 1, r.reply.retryable)] else [])
            && ModelsOf(after) == ModelsOf(rounds) + (if r.reply.Response? then [r.reply.model] else [])
            && ResponsesOf(after) == ResponsesOf(rounds) + (if r.reply.Response? then [r.reply] else [])
            && UsageOf(after) == UsageOf(rounds) + (if r.reply.Response? then [r.reply.usage] else [])
            && RepairsOf(after) == RepairsOf(rounds)
               + (if RepairAt(after, |rounds|).Some? then [Repair(|rounds|, RepairAt(after, |rounds|).value)] else [])
  {
    hide RepairCode;
    assert (rounds + [r])[..|rounds|] == rounds;
  }

  lemma {:induction false} OneMoreRequest(digest: Request -> string, rounds: seq<Round>, r: Round)
    ensures RequestsOf(rounds + [r]) == RequestsOf(rounds) + [r.request]
    ensures HashesOf(digest, rounds + [r]) == HashesOf(digest, rounds) + [digest(r.request)]
  {
    assert (rounds + [r])[..|rounds|] == rounds;
  }

  class Observer {
    var calls: nat
    var usage: seq<Option<nat>>
    var responseModels: seq<string>
    const digest: Request -> string
    var requestHashes: seq<string>
    var requests: seq<Request>       // request_snapshots
    var responses: seq<Reply>        // response_snapshots
    var failures: seq<Failure>
    var repairErrors: seq<Repair>
    ghost var rounds: seq<Round>

    ghost predicate Valid()
      reads this
    {
      && calls == |rounds|
      && requests == RequestsOf(rounds) && requestHashes == HashesOf(digest, rounds)
      && responses == ResponsesOf(rounds)
      && failures == FailuresOf(rounds)
      && responseModels == ModelsOf(rounds) && usage == UsageOf(rounds)
      && repairErrors == RepairsOf(rounds)
    }

    constructor (hash: Request -> string)
      ensures Valid() && rounds == [] && digest == hash
    {
      digest, requestHashes, responses := hash, [], [];
      calls, usage, responseModels, requests, failures, repairErrors := 0, [], [], [], [], [];
      rounds := [];
    }

    // Up to `await self.provider.complete(request)`.
    method NoteRequest(request: Request)
      modifies this`calls, this`requests, this`requestHashes, this`repairErrors
      ensures calls == old(calls) + 1
      ensures requests == old(requests) + [request] && requestHashes == old(requestHashes) + [digest(request)]
      ensures repairErrors == old(repairErrors)
                              + if old(calls) > 0 && request.lastText.Some? && RepairCode(request.lastText.value).Some?
                                then [Repair(old(calls), RepairCode(request.lastText.value).value)] else []
    {
      calls := calls + 1;
      requests := requests + [request];
      if calls > 1 && request.lastText.Some? {
        var code := RepairCode(request.lastText.value);
        if code.Some? {
          repairErrors := repairErrors + [Repair(calls - 1, code.value)];
        }
      }
      requestHashes := requestHashes + [digest(request)];
    }

    // Once the wrapped provider has answered or raised.
    method NoteReply(reply: Reply)
      modifies this`failures, this`usage, this`responseModels, this`responses
      ensures failures == old(failures) + if reply.ProviderError? then [Failure(calls, reply.retryable)] else []
      ensures usage == old(usage) + if reply.Response? then [reply.usage] else []
      ensures responseModels == old(responseModels) + if reply.Response? then [reply.model] else []
      ensures responses == old(responses) + if reply.Response? then [reply] else []
    {
      match reply
      case ProviderError(retryable) =>
        failures := failures + [Failure(calls, retryable)];
      case Other =>
      case Response(model, used) =>
        usage := usage + [used];
        responseModels := responseModels + [model];
        responses := responses + [reply];
    }

    method Complete(request: Request, reply: Reply)
      requires Valid()
      modifies this
      ensures Valid() && rounds == old(rounds) + [Round(request, reply)]
    {
      OneMoreRound(rounds, Round(request, reply));
      OneMoreRequest(digest, rounds, Round(request, reply));
      hide RepairCode, FailuresOf, ModelsOf, UsageOf, RepairsOf, ResponsesOf, RequestsOf, HashesOf;
      NoteRequest(request);
      NoteReply(reply);
      rounds := rounds + [Round(request, reply)];
    }
  }

  // ---- the record of an attempt adds up ----

  // Every call ends in exactly one of a response, a recorded failure, or another
  // exception.
  lemma {:induction false} CallsAreAccountedFor(rounds: seq<Round>)
    ensures |ModelsOf(rounds)| + |FailuresOf(rounds)| + OthersOf(rounds) == |rounds|
    ensures |UsageOf(rounds)| == |ModelsOf(rounds)| == |ResponsesOf(rounds)|
    ensures |RequestsOf(rounds)| == |rounds|
  {
    if rounds != [] {
      CallsAreAccountedFor(rounds[..|rounds| - 1]);
    }
  }

  // The positions of the calls that were answered.
  ghost predicate Answered(rounds: seq<Round>, at: seq<nat>) {
    && (forall i, j :: 0 <= i < j < |at| ==> at[i] < at[j])
    && (forall j :: 0 <= j < |at| ==> at[j] < |rounds| && rounds[at[j]].reply.Response?)
    && (forall k :: 0 <= k < |rounds| && rounds[k].reply.Response? ==> k in at)
  }

  // One request and its hash per call, in call order.
  lemma {:induction false} RequestsMean(digest: Request -> string, rounds: seq<Round>)
    ensures |RequestsOf(rounds)| == |HashesOf(digest, rounds)| == |rounds|
    ensures forall i :: 0 <= i < |rounds| ==>
              RequestsOf(rounds)[i] == rounds[i].request && HashesOf(digest, rounds)[i] == digest(rounds[i].request)
  {
    if rounds != [] {
      RequestsMean(digest, rounds[..|rounds| - 1]);
    }
  }

  // Per answered call its reply, the model that answered and its usage, in call order.
  lemma {:induction false} AnswersMean(rounds: seq<Round>) returns (at: seq<nat>)
    ensures Answered(rounds, at)
    ensures AnsweredAt(rounds, at, ResponsesOf(rounds), ModelsOf(rounds), UsageOf(rounds))
  {
    at := [];
    if rounds != [] {
      var n := |rounds| - 1;
      var before := AnswersMean(rounds[..n]);
      AnsweredLast(rounds, before);
      AnswerKept(rounds, before);
      hide Answered, AnsweredAt;
      at := before + if rounds[n].reply.Response? then [n] else [];
    }
  }

  // The lists hold the data of the calls at these positions.
  ghost predicate AnsweredAt(
      rounds: seq<Round>, at: seq<nat>, replies: seq<Reply>, models: seq<string>, usage: seq<Option<nat>>) {
    && |replies| == |models| == |usage| == |at|
    && forall j :: 0 <= j < |at| ==>
         at[j] < |rounds| && Response(models[j], usage[j]) == replies[j] == rounds[at[j]].reply
  }

  lemma {:induction false} AnswerKept(rounds: seq<Round>, at: seq<nat>)
    requires rounds != []
    requires var before := rounds[..|rounds| - 1];
             AnsweredAt(before, at, ResponsesOf(before), ModelsOf(before), UsageOf(before))
    ensures AnsweredAt(rounds, at + if rounds[|rounds| - 1].reply.Response? then [|rounds| - 1] else [],
                       ResponsesOf(rounds), ModelsOf(rounds), UsageOf(rounds))
  {
    var n := |rounds| - 1;
    var replies, models, usage := ResponsesOf(rounds[..n]), ModelsOf(rounds[..n]), UsageOf(rounds[..n]);
    assert rounds == rounds[..n] + [rounds[n]];
    OneMoreRound(rounds[..n], rounds[n]);
    hide ResponsesOf, ModelsOf, UsageOf;
    assert forall j :: 0 <= j < |at| ==> rounds[..n][at[j]] == rounds[at[j]];
  }

  lemma {:induction false} AnsweredLast(rounds: seq<Round>, at: seq<nat>)
    requires rounds != [] && Answered(rounds[..|rounds| - 1], at)
    ensures forall j :: 0 <= j < |at| ==> at[j] < |rounds| - 1
    ensures Answered(rounds, at + if rounds[|rounds| - 1].reply.Response? then [|rounds| - 1] else [])
  {
    var n := |rounds| - 1;
    var longer := at + if rounds[n].reply.Response? then [n] else [];
    forall k | 0 <= k < |rounds| && rounds[k].reply.Response? ensures k in longer {
      if k < n {
        assert rounds[..n][k].reply.Response?;
      }
    }
  }

  predicate FailureAt(rounds: seq<Round>, f: Failure) {
    1 <= f.providerCall <= |rounds| && rounds[f.providerCall - 1].reply == ProviderError(f.retryable)
  }

  // The recorded failures are exactly the failing calls, in call order and each
  // once.
  lemma {:induction false} FailuresAreTheFailingCalls(rounds: seq<Round>)
    ensures forall f :: f in FailuresOf(rounds) <==> FailureAt(rounds, f)
    ensures forall i, j :: 0 <= i < j < |FailuresOf(rounds)| ==>
              FailuresOf(rounds)[i].providerCall < FailuresOf(rounds)[j].providerCall
  {
    if rounds != [] {
      var n := |rounds| - 1;
      var before := FailuresOf(rounds[..n]);
      FailuresAreTheFailingCalls(rounds[..n]);
      forall f ensures FailureAt(rounds, f) <==> FailureAt(rounds[..n], f) || FailureLast(rounds, f) {
      }
      forall i | 0 <= i < |before| ensures before[i].providerCall <= n {
        assert before[i] in before;
      }
      hide FailureAt;
      assert FailuresOf(rounds) == before
             + if rounds[n].reply.ProviderError? then [Failure(n + 1, rounds[n].reply.retryable)] else [];
    }
  }

  predicate FailureLast(rounds: seq<Round>, f: Failure)
    requires rounds != []
  {
    var n := |rounds| - 1;
    rounds[n].reply.ProviderError? && f == Failure(n + 1, rounds[n].reply.retryable)
  }

  // The call after number r.providerCall carried a message with that code.
  ghost predicate RepairOf(rounds: seq<Round>, r: Repair) {
    && 1 <= r.providerCall < |rounds| && rounds[r.providerCall].request.lastText.Some?
    && RepairCode(rounds[r.providerCall].request.lastText.value) == Some(r.code)
  }

  predicate RepairLast(rounds: seq<Round>, r: Repair)
    requires rounds != []
  {
    r.providerCall == |rounds| - 1 && RepairAt(rounds, r.providerCall) == Some(r.code)
  }

  // A recorded repair points at the call before the one that carried the repair
  // message, so never at the last call, and no call is repaired twice.
  lemma {:induction false} RepairsPointAtEarlierCalls(rounds: seq<Round>)
    ensures forall r :: r in RepairsOf(rounds) <==> RepairOf(rounds, r)
    ensures forall i, j :: 0 <= i < j < |RepairsOf(rounds)| ==>
              RepairsOf(rounds)[i].providerCall < RepairsOf(rounds)[j].providerCall
  {
    if rounds != [] {
      var n := |rounds| - 1;
      var before := RepairsOf(rounds[..n]);
      RepairsPointAtEarlierCalls(rounds[..n]);
      forall r ensures RepairOf(rounds, r) <==> RepairOf(rounds[..n], r) || RepairLast(rounds, r) {
        hide RepairCode;
      }
      forall i | 0 <= i < |before| ensures before[i].providerCall < n {
        assert before[i] in before;
      }
      hide RepairOf;
      assert RepairsOf(rounds) == before
             + if RepairAt(rounds, n).Some? then [Repair(n, RepairAt(rounds, n).value)] else [];
    }
  }
}
