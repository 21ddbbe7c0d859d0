// _strip_js_comments of scripts/audit_capabilities.py: a character scanner that
// removes comments but keeps strings and newlines, and the line numbers the
// JavaScript scanner computes on its output.
module CommentStripper {
  import opened Wrappers

  // A kept character and whether it was kept as part of a string.
  datatype Kept = Kept(c: char, inString: bool)

  predicate IsQuote(c: char) {
    c == '\'' || c == '"' || c == '`'
  }

  predicate Opens(s: string, second: char) {
    |s| >= 2 && s[0] == '/' && s[1] == second
  }

  // ---- the scanner's reading of a text, one function per mode ----

  function Code(s: string): seq<Kept>
    decreases |s|, 0
  {
    if s == [] then []
    else if IsQuote(s[0]) then [Kept(s[0], true)] + Quoted(s[1..], s[0], false)
    else if Opens(s, '/') then Line(s[2..])
    else if Opens(s, '*') then Block(s[2..])
    else [Kept(s[0], false)] + Code(s[1..])
  }

  function Quoted(s: string, quote: char, escaped: bool): seq<Kept>
    decreases |s|, 0
  {
    if s == [] then []
    else
      [Kept(s[0], true)]
      + if escaped then Quoted(s[1..], quote, false)
        else if s[0] == '\\' then Quoted(s[1..], quote, true)
        else if s[0] == quote then Code(s[1..])
        else Quoted(s[1..], quote, false)
  }

  function Line(s: string): seq<Kept>
    decreases |s|, 1
  {
    if s == [] then [] else if s[0] == '\n' then Code(s) else Line(s[1..])
  }

  function Block(s: string): seq<Kept>
    decreases |s|, 0
  {
    if s == [] then []
    else if s[0] == '*' && |s| > 1 && s[1] == '/' then Code(s[2..])
    else (if s[0] == '\n' then [Kept('\n', false)] else []) + Block(s[1..])
  }

  function Chars(k: seq<Kept>): (r: string)
    ensures |r| == |k| && forall i :: 0 <= i < |r| ==> r[i] == k[i].c
  {
    seq(|k|, i requires 0 <= i < |k| => k[i].c)
  }

  function Strip(s: string): string {
    Chars(Code(s))
  }

  // ---- the loop ----

  function Rest(s: string, quote: Option<char>, escaped: bool): seq<Kept> {
    match quote case None => Code(s) case Some(q) => Quoted(s, q, escaped)
  }

  // What has been kept plus what the scanner will keep is what it keeps overall.
  ghost predicate Scanned(
      source: string, index: nat, quote: Option<char>, escaped: bool, kept: seq<Kept>, result: string) {
    && index <= |source|
    && result == Chars(kept)
    && kept + Rest(source[index..], quote, escaped) == Code(source)
  }

  method StripJsComments(source: string) returns (result: string)
    ensures result == Strip(source)
  {
    result := "";
    ghost var kept: seq<Kept> := [];
    var index, quote, escaped := 0, None, false;
    assert source[0..] == source;
    while index < |source|
      invariant index <= |source| && Scanned(source, index, quote, escaped, kept, result)
      invariant quote.None? ==> !escaped
    {
      var c := source[index];
      var next := if index + 1 < |source| then Some(source[index + 1]) else None;
      KeepTurn(source, index, quote, escaped, kept, result);
      SkipTurn(source, index);
      hide Scanned, Code, Line, Block, Chars;
      if quote.Some? {
        result, kept := result + [c], kept + [Kept(c, true)];
        if escaped {
          escaped := false;
        } else if c == '\\' {
          escaped := true;
        } else if c == quote.value {
          quote := None;
        }
        index := index + 1;
      } else if IsQuote(c) {
        quote := Some(c);
        result, kept := result + [c], kept + [Kept(c, true)];
        index := index + 1;
      } else if c == '/' && next == Some('/') {
        var after := SkipLineComment(source, index);
        Skipped(source, index, after, escaped, kept, [], result, result);
        index := after;
      } else if c == '/' && next == Some('*') {
        ghost var lines;
        var after, longer;
        after, longer, lines := SkipBlockComment(source, index + 2, result, kept);
        Skipped(source, index, after, escaped, kept, lines, result, longer);
        index, result, kept := after, longer, kept + lines;
      } else {
        result, kept := result + [c], kept + [Kept(c, false)];
        index := index + 1;
      }
    }
    assert source[index..] == [];
    assert kept + [] == kept;
  }

  function NextQuote(c: char, quote: Option<char>, escaped: bool): Option<char> {
    if quote == Some(c) && !escaped && c != '\\' then None else quote
  }

  predicate NextEscaped(c: char, quote: Option<char>, escaped: bool) {
    if quote.Some? then !escaped && c == '\\' else escaped
  }

  // One turn of the outer loop that keeps its character.
  lemma {:induction false} KeepTurn(
      source: string, index: nat, quote: Option<char>, escaped: bool, kept: seq<Kept>, result: string)
    requires index < |source| && Scanned(source, index, quote, escaped, kept, result)
    ensures result == Chars(kept)
    ensures var c := source[index];
            if quote.Some? then
              Scanned(source, index + 1, NextQuote(c, quote, escaped), NextEscaped(c, quote, escaped),
                      kept + [Kept(c, true)], result + [c])
            else if IsQuote(c) then
              Scanned(source, index + 1, Some(c), false, kept + [Kept(c, true)], result + [c])
            else if Opens(source[index..], '/') || Opens(source[index..], '*') then true
            else Scanned(source, index + 1, None, escaped, kept + [Kept(c, false)], result + [c])
  {
    var text, c := source[index..], source[index];
    assert text[0] == c && text[1..] == source[index + 1..];
    CharsSnoc(kept, Kept(c, true));
    CharsSnoc(kept, Kept(c, false));
    hide Chars;
    if quote.Some? {
      Regroup(kept, Kept(c, true), Rest(text[1..], NextQuote(c, quote, escaped), NextEscaped(c, quote, escaped)));
    } else {
      Regroup(kept, Kept(c, true), Rest(text[1..], Some(c), false));
      Regroup(kept, Kept(c, false), Rest(text[1..], None, escaped));
    }
  }

  // What a comment opener at the index means.
  lemma {:induction false} SkipTurn(source: string, index: nat)
    requires index < |source|
    ensures var opens := (c: char) => source[index] == '/' && index + 1 < |source| && source[index + 1] == c;
            && !IsQuote('/')
            && Opens(source[index..], '/') == opens('/')
            && Opens(source[index..], '*') == opens('*')
            && (opens('/') ==> Code(source[index..]) == Line(source[index + 2..]))
            && (opens('*') ==> Code(source[index..]) == Block(source[index + 2..]))
  {
    var text := source[index..];
    assert |text| >= 2 ==> text[1] == source[index + 1] && text[2..] == source[index + 2..];
  }

  lemma {:induction false} Skipped(source: string, index: nat, after: nat, escaped: bool,
                kept: seq<Kept>, lines: seq<Kept>, result: string, longer: string)
    requires index <= after <= |source| && Scanned(source, index, None, escaped, kept, result)
    requires Code(source[index..]) == lines + Code(source[after..])
    requires longer == Chars(kept + lines)
    ensures Scanned(source, after, None, escaped, kept + lines, longer)
    ensures kept + [] == kept
  {
    hide Chars, Code;
    Concat(kept, lines, Code(source[after..]));
    assert kept + [] == kept;
  }

  lemma {:induction false} Concat(a: seq<Kept>, b: seq<Kept>, c: seq<Kept>)
    ensures a + (b + c) == a + b + c
  {
  }

  lemma {:induction false} Regroup(kept: seq<Kept>, k: Kept, rest: seq<Kept>)
    ensures kept + ([k] + rest) == kept + [k] + rest
  {
  }

  lemma {:induction false} CharsSnoc(kept: seq<Kept>, k: Kept)
    ensures Chars(kept + [k]) == Chars(kept) + [k.c]
  {
  }

  // The inner loop of a // comment: up to the newline, which stays.
  method SkipLineComment(source: string, start: nat) returns (index: nat)
    requires start + 1 < |source| && source[start] == '/' && source[start + 1] == '/'
    ensures start < index <= |source| && Code(source[index..]) == Line(source[start + 2..])
  {
    index := start;
    while index < |source| && source[index] != '\n'
      invariant start <= index <= |source|
      invariant index >= start + 2 ==> Line(source[index..]) == Line(source[start + 2..])
    {
      assert index >= start + 2 ==> source[index..][1..] == source[index + 1..];
      index := index + 1;
    }
    assert index >= start + 2;
  }

  // The inner loop of a block comment: only its newlines are kept.
  method SkipBlockComment(source: string, start: nat, before: string, ghost kept: seq<Kept>)
    returns (index: nat, result: string, ghost lines: seq<Kept>)
    requires start <= |source| && before == Chars(kept)
    ensures start <= index <= |source|
    ensures lines + Code(source[index..]) == Block(source[start..]) && result == Chars(kept + lines)
  {
    index, result, lines := start, before, [];
    assert kept + lines == kept;
    BlockAtEnd(source);
    while index < |source|
      invariant start <= index <= |source|
      invariant lines + Block(source[index..]) == Block(source[start..]) && result == Chars(kept + lines)
    {
      BlockAtIndex(source, index, lines);
      hide Block, Chars, Code;
      if source[index] == '*' && index + 1 < |source| && source[index + 1] == '/' {
        index := index + 2;
        return;
      }
      if source[index] == '\n' {
        CharsSnoc(kept + lines, Kept('\n', false));
        assert kept + lines + [Kept('\n', false)] == kept + (lines + [Kept('\n', false)]);
        result, lines := result + ['\n'], lines + [Kept('\n', false)];
      }
      index := index + 1;
    }
  }

  // One turn of that loop.
  lemma {:induction false} BlockAtIndex(source: string, index: nat, lines: seq<Kept>)
    requires index < |source|
    ensures var ends := source[index] == '*' && index + 1 < |source| && source[index + 1] == '/';
            && (ends ==> Block(source[index..]) == Code(source[index + 2..]))
            && (!ends && source[index] == '\n' ==>
                  lines + Block(source[index..]) == lines + [Kept('\n', false)] + Block(source[index + 1..]))
            && (!ends && source[index] != '\n' ==> Block(source[index..]) == Block(source[index + 1..]))
  {
    var text := source[index..];
    assert text[1..] == source[index + 1..];
    assert |text| > 1 ==> text[2..] == source[index + 2..];
    if source[index] == '\n' {
      Regroup(lines, Kept('\n', false), Block(source[index + 1..]));
    }
  }

  lemma {:induction false} BlockAtEnd(source: string)
    ensures Block(source[|source|..]) == Code(source[|source|..])
  {
    assert source[|source|..] == [];
  }

  // ---- a second pass reads the output exactly as the first read the input ----

  lemma {:induction false} CharsCons(k: Kept, rest: seq<Kept>)
    ensures Chars([k] + rest) == [k.c] + Chars(rest)
  {
  }

  // The first kept character after a code character that is no slash opener.
  lemma {:induction false} SlashStaysAlone(s: string)
    requires s != [] && s[0] != '/'
    ensures Code(s) != [] && Code(s)[0].c == s[0]
  {
  }

  lemma {:induction false} RereadCode(s: string)
    ensures Code(Chars(Code(s))) == Code(s)
    decreases |s|, 0
  {
    if s == [] {
    } else if IsQuote(s[0]) {
      RereadQuoted(s[1..], s[0], false);
      CharsCons(Kept(s[0], true), Quoted(s[1..], s[0], false));
    } else if Opens(s, '/') {
      RereadLine(s[2..]);
    } else if Opens(s, '*') {
      RereadBlock(s[2..]);
    } else {
      RereadCode(s[1..]);
      KeptCode(s[0], s[1..]);
    }
  }

  // A code character in front of the output does not open a comment there.
  lemma {:induction false} KeptCode(c: char, rest: string)
    requires !IsQuote(c) && !Opens([c] + rest, '/') && !Opens([c] + rest, '*')
    requires Code(Chars(Code(rest))) == Code(rest)
    ensures Code(Chars([Kept(c, false)] + Code(rest))) == [Kept(c, false)] + Code(rest)
  {
    var out := Chars([Kept(c, false)] + Code(rest));
    CharsCons(Kept(c, false), Code(rest));
    if c == '/' && rest != [] {
      SlashStaysAlone(rest);
    }
    assert !Opens(out, '/') && !Opens(out, '*');
  }

  lemma {:induction false} RereadQuoted(s: string, quote: char, escaped: bool)
    ensures Quoted(Chars(Quoted(s, quote, escaped)), quote, escaped) == Quoted(s, quote, escaped)
    decreases |s|, 0
  {
    if s != [] {
      var rest := if escaped then Quoted(s[1..], quote, false)
                  else if s[0] == '\\' then Quoted(s[1..], quote, true)
                  else if s[0] == quote then Code(s[1..])
                  else Quoted(s[1..], quote, false);
      CharsCons(Kept(s[0], true), rest);
      if escaped {
        RereadQuoted(s[1..], quote, false);
      } else if s[0] == '\\' {
        RereadQuoted(s[1..], quote, true);
      } else if s[0] == quote {
        RereadCode(s[1..]);
      } else {
        RereadQuoted(s[1..], quote, false);
      }
    }
  }

  lemma {:induction false} RereadLine(s: string)
    ensures Code(Chars(Line(s))) == Line(s)
    decreases |s|, 1
  {
    if s != [] {
      if s[0] == '\n' {
        RereadCode(s);
      } else {
        RereadLine(s[1..]);
      }
    }
  }

  lemma {:induction false} RereadBlock(s: string)
    ensures Code(Chars(Block(s))) == Block(s)
    decreases |s|, 0
  {
    if s != [] {
      if s[0] == '*' && |s| > 1 && s[1] == '/' {
        RereadCode(s[2..]);
      } else {
        RereadBlock(s[1..]);
        if s[0] == '\n' {
          var out := Chars([Kept('\n', false)] + Block(s[1..]));
          CharsCons(Kept('\n', false), Block(s[1..]));
          assert out[0] == '\n';
        } else {
          assert Block(s) == Block(s[1..]);
        }
      }
    }
  }

  // Stripping keeps every character in its role: the strings of the output are
  // the strings of the source. Idempotence is one consequence.
  lemma {:induction false} StripPreservesReading(s: string)
    ensures Code(Strip(s)) == Code(s)
    ensures Strip(Strip(s)) == Strip(s)
  {
    RereadCode(s);
  }

  // No comment opens outside a string.
  predicate CommentFree(s: string)
    decreases |s|
  {
    s != [] ==>
      if IsQuote(s[0]) then CommentFreeAfter(s[1..], s[0], false)
      else !Opens(s, '/') && !Opens(s, '*') && CommentFree(s[1..])
  }

  predicate CommentFreeAfter(s: string, quote: char, escaped: bool)
    decreases |s|
  {
    s != [] ==>
      if escaped then CommentFreeAfter(s[1..], quote, false)
      else if s[0] == '\\' then CommentFreeAfter(s[1..], quote, true)
      else if s[0] == quote then CommentFree(s[1..])
      else CommentFreeAfter(s[1..], quote, false)
  }

  lemma {:induction false} KeptAtMost(s: string, quote: char, escaped: bool)
    ensures |Code(s)| <= |s| && |Quoted(s, quote, escaped)| <= |s| && |Line(s)| <= |s| && |Block(s)| <= |s|
    decreases |s|
  {
    if s != [] {
      forall q, e
        ensures |Code(s[1..])| < |s| && |Quoted(s[1..], q, e)| < |s| && |Line(s[1..])| < |s| && |Block(s[1..])| < |s|
      {
        KeptAtMost(s[1..], q, e);
      }
      if |s| > 1 {
        KeptAtMost(s[2..], quote, escaped);
      }
    }
  }

  lemma {:induction false} WholeCode(s: string)
    ensures CommentFree(s) <==> |Code(s)| == |s|
    ensures CommentFree(s) ==> Chars(Code(s)) == s
    decreases |s|
  {
    hide Chars;
    if s == [] {
      NoChars();
    } else {
      Unit(s);
      if IsQuote(s[0]) {
        WholeQuoted(s[1..], s[0], false);
        CharsCons(Kept(s[0], true), Quoted(s[1..], s[0], false));
      } else if Opens(s, '/') || Opens(s, '*') {
        KeptAtMost(s[2..], s[0], false);
      } else {
        WholeCode(s[1..]);
        CharsCons(Kept(s[0], false), Code(s[1..]));
      }
    }
  }

  lemma {:induction false} WholeQuoted(s: string, quote: char, escaped: bool)
    ensures CommentFreeAfter(s, quote, escaped) <==> |Quoted(s, quote, escaped)| == |s|
    ensures CommentFreeAfter(s, quote, escaped) ==> Chars(Quoted(s, quote, escaped)) == s
    decreases |s|
  {
    hide Chars;
    if s == [] {
      NoChars();
    } else {
      Unit(s);
      if !escaped && s[0] == quote && s[0] != '\\' {
        WholeCode(s[1..]);
        CharsCons(Kept(s[0], true), Code(s[1..]));
      } else {
        var next := !escaped && s[0] == '\\';
        WholeQuoted(s[1..], quote, next);
        CharsCons(Kept(s[0], true), Quoted(s[1..], quote, next));
      }
    }
  }

  lemma {:induction false} NoChars()
    ensures Chars([]) == []
  {
  }

  lemma {:induction false} Unit(s: string)
    requires s != []
    ensures s == [s[0]] + s[1..]
  {
  }

  // Stripping leaves a text alone exactly when no comment opens outside its
  // strings, and its output is always such a text.
  lemma {:induction false} UnchangedIffCommentFree(s: string)
    ensures Strip(s) == s <==> CommentFree(s)
    ensures CommentFree(Strip(s))
  {
    WholeCode(s);
    WholeCode(Strip(s));
    StripPreservesReading(s);
  }

  // ---- what stripping does to each part of a text, written out ----

  // The inside of a literal: characters other than the quote, and escape pairs.
  ghost predicate Inside(body: string, quote: char) {
    body != [] ==>
      if body[0] == '\\' then |body| >= 2 && Inside(body[2..], quote)
      else body[0] != quote && Inside(body[1..], quote)
  }

  // One character inside a literal.
  lemma {:induction false} InsideTurn(c: char, quote: char, escaped: bool, rest: string)
    ensures Chars(Quoted([c] + rest, quote, escaped)) ==
            [c] + if escaped then Chars(Quoted(rest, quote, false))
                  else if c == '\\' then Chars(Quoted(rest, quote, true))
                  else if c == quote then Strip(rest)
                  else Chars(Quoted(rest, quote, false))
  {
    assert ([c] + rest)[1..] == rest;
    CharsCons(Kept(c, true), Quoted(rest, quote, false));
    CharsCons(Kept(c, true), Quoted(rest, quote, true));
    CharsCons(Kept(c, true), Code(rest));
    hide Chars, Code;
  }

  lemma {:induction false} ScanInside(body: string, quote: char, rest: string)
    requires Inside(body, quote)
    ensures Chars(Quoted(body + rest, quote, false)) == body + Chars(Quoted(rest, quote, false))
    decreases |body|
  {
    hide Quoted, Chars;
    if body == [] {
      assert body + rest == rest;
    } else if body[0] == '\\' {
      ScanInside(body[2..], quote, rest);
      assert body + rest == [body[0]] + ([body[1]] + (body[2..] + rest));
      InsideTurn(body[0], quote, false, [body[1]] + (body[2..] + rest));
      InsideTurn(body[1], quote, true, body[2..] + rest);
    } else {
      ScanInside(body[1..], quote, rest);
      assert body + rest == [body[0]] + (body[1..] + rest);
      InsideTurn(body[0], quote, false, body[1..] + rest);
    }
  }

  lemma {:induction false} LiteralOpens(quote: char, rest: string)
    requires quote in {'\'', '"', '`'}
    ensures Strip([quote] + rest) == [quote] + Chars(Quoted(rest, quote, false))
  {
    assert ([quote] + rest)[1..] == rest;
    CharsCons(Kept(quote, true), Quoted(rest, quote, false));
    hide Chars, Quoted;
  }

  // A literal in any of the three quotes stays as it is, whatever comment marks,
  // other quotes and escaped quotes it holds; so does one that is never closed.
  lemma {:induction false} LiteralsStay(quote: char, body: string, rest: string)
    requires quote in {'\'', '"', '`'} && Inside(body, quote)
    ensures Strip([quote] + body + [quote] + rest) == [quote] + body + [quote] + Strip(rest)
    ensures Strip([quote] + body) == [quote] + body
  {
    assert Chars(Quoted([], quote, false)) == [];
    hide Strip, Chars, Quoted, Inside;
    Wrapped(quote, body, rest);
    Wrapped(quote, body, Strip(rest));
    LiteralOpens(quote, body + ([quote] + rest));
    ScanInside(body, quote, [quote] + rest);
    InsideTurn(quote, quote, false, rest);
    LiteralOpens(quote, body + []);
    ScanInside(body, quote, []);
    assert body + [] == body;
  }

  lemma {:induction false} Wrapped(quote: char, body: string, rest: string)
    ensures [quote] + body + [quote] + rest == [quote] + (body + ([quote] + rest))
  {
  }

  lemma {:induction false} NoQuoteInside(body: string, quote: char)
    requires quote !in body && '\\' !in body
    ensures Inside(body, quote)
  {
    if body != [] {
      assert body[0] in body;
      NoQuoteInside(body[1..], quote);
    }
  }

  // A literal without its own quote and without backslashes is the plain case, and
  // an escaped quote does not end it.
  lemma {:induction false} PlainInside(a: string, b: string, quote: char)
    requires quote != '\\' && quote !in a && '\\' !in a && quote !in b && '\\' !in b
    ensures Inside(a, quote) && Inside(a + ['\\', quote] + b, quote)
  {
    NoQuoteInside(a, quote);
    var whole := a + ['\\', quote] + b;
    if a != [] {
      PlainInside(a[1..], b, quote);
      assert whole[0] == a[0] && a[0] in a && whole[1..] == a[1..] + ['\\', quote] + b;
    } else {
      assert whole[2..] == b;
      NoQuoteInside(b, quote);
    }
  }

  // A line comment goes, up to the newline, which stays.
  lemma {:induction false} LineCommentGoes(body: string, rest: string)
    requires '\n' !in body
    ensures Strip("//" + body + "\n" + rest) == "\n" + Strip(rest)
    ensures Strip("//" + body) == ""
  {
    var ended, last := "//" + body + "\n" + rest, "//" + body;
    assert ended[2..] == body + ("\n" + rest) && last[2..] == body + [];
    SkipLine(body, "\n" + rest);
    SkipLine(body, []);
    assert ("\n" + rest)[1..] == rest;
    CharsCons(Kept('\n', false), Code(rest));
  }

  lemma {:induction false} SkipLine(body: string, rest: string)
    requires '\n' !in body
    ensures Line(body + rest) == Line(rest)
  {
    if body == [] {
      assert body + rest == rest;
    } else {
      assert (body + rest)[1..] == body[1..] + rest && body[0] in body;
      SkipLine(body[1..], rest);
    }
  }

  // As many newlines as the text has.
  function Blank(text: string): string {
    seq(multiset(text)['\n'], _ => '\n')
  }

  // A block comment goes, up to its first end mark, and leaves its newlines; so does
  // one that never ends.
  lemma {:induction false} BlockCommentGoes(body: string, rest: string)
    requires !exists a, b :: body == a + "*/" + b
    ensures Strip("/*" + body + "*/" + rest) == Blank(body) + Strip(rest)
    ensures Strip("/*" + body) == Blank(body)
  {
    NoEnd(body);
    BlockOpens(body + ("*/" + rest));
    BlockOpens(body + []);
    BlockCloses(rest);
    assert Chars(Block([])) == "";
    hide Strip, Chars, Block, Blank, Endless;
    SkipBlock(body, "*/" + rest);
    SkipBlock(body, []);
    FourParts("/*", body, "*/", rest);
    assert body + [] == body;
  }

  lemma {:induction false} FourParts(a: string, b: string, c: string, d: string)
    ensures a + b + c + d == a + (b + (c + d))
  {
  }

  lemma {:induction false} BlockOpens(rest: string)
    ensures Strip("/*" + rest) == Chars(Block(rest))
  {
    assert ("/*" + rest)[2..] == rest;
  }

  lemma {:induction false} BlockCloses(rest: string)
    ensures Chars(Block("*/" + rest)) == Strip(rest)
  {
    assert ("*/" + rest)[2..] == rest;
  }

  lemma {:induction false} BlockTurn(c: char, rest: string)
    requires !(c == '*' && rest != [] && rest[0] == '/')
    ensures Chars(Block([c] + rest)) == (if c == '\n' then ['\n'] else []) + Chars(Block(rest))
  {
    var text := [c] + rest;
    assert text[1..] == rest;
    if c == '\n' {
      CharsCons(Kept('\n', false), Block(rest));
    } else {
      assert Block(text) == Block(rest);
    }
    hide Chars;
  }

  lemma {:induction false} BlankCons(c: char, text: string)
    ensures Blank([c] + text) == (if c == '\n' then ['\n'] else []) + Blank(text)
  {
  }

  // The text has no end mark in it.
  ghost predicate Endless(body: string) {
    body != [] ==> !(|body| > 1 && body[0] == '*' && body[1] == '/') && Endless(body[1..])
  }

  lemma {:induction false} NoEnd(body: string)
    ensures Endless(body) || exists a, b :: body == a + "*/" + b
  {
    if body != [] {
      if |body| > 1 && body[0] == '*' && body[1] == '/' {
        assert body == "" + "*/" + body[2..];
      } else {
        NoEnd(body[1..]);
        if a, b :| body[1..] == a + "*/" + b {
          assert body == [body[0]] + a + "*/" + b;
        }
      }
    }
  }

  lemma {:induction false} SkipBlock(body: string, rest: string)
    requires Endless(body) && (rest == [] || rest[0] != '/')
    ensures Chars(Block(body + rest)) == Blank(body) + Chars(Block(rest))
  {
    hide Block, Chars, Blank;
    if body == [] {
      NoBlank();
      assert body + rest == rest;
    } else {
      SkipBlock(body[1..], rest);
      BlockTurn(body[0], body[1..] + rest);
      BlankCons(body[0], body[1..]);
      assert body + rest == [body[0]] + (body[1..] + rest) && body == [body[0]] + body[1..];
    }
  }

  lemma {:induction false} NoBlank()
    ensures Blank([]) == []
  {
  }

  // Any other character of the code stays, a slash as well unless it opens a comment.
  lemma {:induction false} CodeStays(c: char, rest: string)
    requires c !in {'\'', '"', '`'}
    requires c == '/' ==> rest == [] || (rest[0] != '/' && rest[0] != '*')
    ensures Strip([c] + rest) == [c] + Strip(rest)
  {
    assert ([c] + rest)[1..] == rest;
    CharsCons(Kept(c, false), Code(rest));
  }

  // ---- where the kept characters come from ----

  function Newlines(s: string): nat {
    if s == [] then 0 else (if s[0] == '\n' then 1 else 0) + Newlines(s[1..])
  }

  function CodeAt(s: string, at: nat): seq<nat>
    decreases |s|, 0
  {
    if s == [] then []
    else if IsQuote(s[0]) then [at] + QuotedAt(s[1..], s[0], false, at + 1)
    else if Opens(s, '/') then LineAt(s[2..], at + 2)
    else if Opens(s, '*') then BlockAt(s[2..], at + 2)
    else [at] + CodeAt(s[1..], at + 1)
  }

  function QuotedAt(s: string, quote: char, escaped: bool, at: nat): seq<nat>
    decreases |s|, 0
  {
    if s == [] then []
    else
      [at]
      + if escaped then QuotedAt(s[1..], quote, false, at + 1)
        else if s[0] == '\\' then QuotedAt(s[1..], quote, true, at + 1)
        else if s[0] == quote then CodeAt(s[1..], at + 1)
        else QuotedAt(s[1..], quote, false, at + 1)
  }

  function LineAt(s: string, at: nat): seq<nat>
    decreases |s|, 1
  {
    if s == [] then [] else if s[0] == '\n' then CodeAt(s, at) else LineAt(s[1..], at + 1)
  }

  function BlockAt(s: string, at: nat): seq<nat>
    decreases |s|, 0
  {
    if s == [] then []
    else if s[0] == '*' && |s| > 1 && s[1] == '/' then CodeAt(s[2..], at + 2)
    else (if s[0] == '\n' then [at] else []) + BlockAt(s[1..], at + 1)
  }

  // `at` names, in increasing order, the positions of the kept characters of s,
  // and only characters that are no newlines lie between them.
  ghost predicate Faithful(s: string, kept: seq<Kept>, at: seq<nat>, base: nat) {
    && |at| == |kept|
    && (forall j :: 0 <= j < |at| ==> FaithfulAt(s, kept, at[j], base, j))
    && Increasing(at)
    && Newlines(Chars(kept)) == Newlines(s)
  }

  ghost predicate Increasing(at: seq<nat>) {
    forall i, j :: 0 <= i < j < |at| ==> at[i] < at[j]
  }

  ghost predicate FaithfulAt(s: string, kept: seq<Kept>, position: nat, base: nat, j: nat)
    requires j < |kept|
  {
    && base <= position < base + |s|
    && s[position - base] == kept[j].c
    && Newlines(s[..position - base]) == Newlines(Chars(kept)[..j])
  }

  lemma {:induction false} KeepAt(k: Kept, s: string, kept: seq<Kept>, position: nat, base: nat, j: nat)
    requires j < |kept| && FaithfulAt(s, kept, position, base + 1, j)
    ensures FaithfulAt([k.c] + s, [k] + kept, position, base, j + 1)
  {
    var m := position - (base + 1);
    assert ([k.c] + s)[..m + 1] == [k.c] + s[..m];
    assert Chars([k] + kept)[..j + 1] == [k.c] + Chars(kept)[..j];
    NewlinesCons(k.c, s[..m]);
    NewlinesCons(k.c, Chars(kept)[..j]);
  }

  lemma {:induction false} KeepFirst(k: Kept, s: string, kept: seq<Kept>, base: nat)
    ensures FaithfulAt([k.c] + s, [k] + kept, base, base, 0)
  {
    assert ([k.c] + s)[..0] == Chars([k] + kept)[..0];
  }

  lemma {:induction false} KeepTotal(k: Kept, s: string, kept: seq<Kept>)
    requires Newlines(Chars(kept)) == Newlines(s)
    ensures Newlines(Chars([k] + kept)) == Newlines([k.c] + s)
  {
    CharsCons(k, kept);
    NewlinesCons(k.c, s);
    NewlinesCons(k.c, Chars(kept));
  }

  lemma {:induction false} IncreasingCons(base: nat, at: seq<nat>)
    requires Increasing(at) && forall j :: 0 <= j < |at| ==> base < at[j]
    ensures Increasing([base] + at)
  {
  }

  lemma {:induction false} Keep(k: Kept, s: string, kept: seq<Kept>, at: seq<nat>, base: nat)
    requires Faithful(s, kept, at, base + 1)
    ensures Faithful([k.c] + s, [k] + kept, [base] + at, base)
  {
    KeepTotal(k, s, kept);
    forall j | 0 <= j < |at| ensures base < at[j] {
      assert FaithfulAt(s, kept, at[j], base + 1, j);
    }
    IncreasingCons(base, at);
    hide Newlines, Chars, FaithfulAt, Increasing;
    var at' := [base] + at;
    forall j | 0 <= j < |at'| ensures FaithfulAt([k.c] + s, [k] + kept, at'[j], base, j) {
      if j == 0 {
        KeepFirst(k, s, kept, base);
      } else {
        assert at'[j] == at[j - 1];
        KeepAt(k, s, kept, at[j - 1], base, j - 1);
      }
    }
  }

  lemma {:induction false} DropAt(c: char, s: string, kept: seq<Kept>, position: nat, base: nat, j: nat)
    requires c != '\n' && j < |kept| && FaithfulAt(s, kept, position, base + 1, j)
    ensures FaithfulAt([c] + s, kept, position, base, j)
  {
    var m := position - (base + 1);
    assert ([c] + s)[..m + 1] == [c] + s[..m];
    NewlinesCons(c, s[..m]);
  }

  lemma {:induction false} Drop(c: char, s: string, kept: seq<Kept>, at: seq<nat>, base: nat)
    requires c != '\n' && Faithful(s, kept, at, base + 1)
    ensures Faithful([c] + s, kept, at, base)
  {
    NewlinesCons(c, s);
    forall j | 0 <= j < |at| ensures FaithfulAt([c] + s, kept, at[j], base, j) {
      DropAt(c, s, kept, at[j], base, j);
    }
  }

  lemma {:induction false} NewlinesCons(c: char, s: string)
    ensures Newlines([c] + s) == (if c == '\n' then 1 else 0) + Newlines(s)
  {
    assert ([c] + s)[1..] == s;
  }

  lemma {:induction false} CodeFaithful(s: string, at: nat)
    ensures Faithful(s, Code(s), CodeAt(s, at), at)
    decreases |s|, 0
  {
    if s != [] {
      assert s == [s[0]] + s[1..];
      if IsQuote(s[0]) {
        QuotedFaithful(s[1..], s[0], false, at + 1);
        Keep(Kept(s[0], true), s[1..], Quoted(s[1..], s[0], false), QuotedAt(s[1..], s[0], false, at + 1), at);
      } else if Opens(s, '/') || Opens(s, '*') {
        assert s[1..] == [s[1]] + s[2..];
        if Opens(s, '/') {
          LineFaithful(s[2..], at + 2);
        } else {
          BlockFaithful(s[2..], at + 2);
        }
        Drop(s[1], s[2..], Code(s), CodeAt(s, at), at + 1);
        Drop(s[0], s[1..], Code(s), CodeAt(s, at), at);
      } else {
        CodeFaithful(s[1..], at + 1);
        Keep(Kept(s[0], false), s[1..], Code(s[1..]), CodeAt(s[1..], at + 1), at);
      }
    }
  }

  lemma {:induction false} QuotedFaithful(s: string, quote: char, escaped: bool, at: nat)
    ensures Faithful(s, Quoted(s, quote, escaped), QuotedAt(s, quote, escaped, at), at)
    decreases |s|, 0
  {
    if s != [] {
      assert s == [s[0]] + s[1..];
      var k := Kept(s[0], true);
      if !escaped && s[0] == quote && s[0] != '\\' {
        CodeFaithful(s[1..], at + 1);
        Keep(k, s[1..], Code(s[1..]), CodeAt(s[1..], at + 1), at);
      } else {
        var e := !escaped && s[0] == '\\';
        QuotedFaithful(s[1..], quote, e, at + 1);
        Keep(k, s[1..], Quoted(s[1..], quote, e), QuotedAt(s[1..], quote, e, at + 1), at);
      }
    }
  }

  lemma {:induction false} LineFaithful(s: string, at: nat)
    ensures Faithful(s, Line(s), LineAt(s, at), at)
    decreases |s|, 1
  {
    if s != [] {
      if s[0] == '\n' {
        CodeFaithful(s, at);
      } else {
        assert s == [s[0]] + s[1..];
        LineFaithful(s[1..], at + 1);
        Drop(s[0], s[1..], Line(s[1..]), LineAt(s[1..], at + 1), at);
      }
    }
  }

  lemma {:induction false} BlockFaithful(s: string, at: nat)
    ensures Faithful(s, Block(s), BlockAt(s, at), at)
    decreases |s|, 0
  {
    if s != [] {
      hide Faithful, Newlines, Chars;
      assert s == [s[0]] + s[1..];
      if s[0] == '*' && |s| > 1 && s[1] == '/' {
        assert s[1..] == [s[1]] + s[2..];
        CodeFaithful(s[2..], at + 2);
        Drop(s[1], s[2..], Code(s[2..]), CodeAt(s[2..], at + 2), at + 1);
        Drop(s[0], s[1..], Code(s[2..]), CodeAt(s[2..], at + 2), at);
      } else {
        BlockFaithful(s[1..], at + 1);
        if s[0] == '\n' {
          Keep(Kept('\n', false), s[1..], Block(s[1..]), BlockAt(s[1..], at + 1), at);
        } else {
          assert Block(s) == Block(s[1..]) && BlockAt(s, at) == BlockAt(s[1..], at + 1);
          Drop(s[0], s[1..], Block(s[1..]), BlockAt(s[1..], at + 1), at);
        }
      }
    }
  }

  // ---- the line numbers of the scanner ----

  // source.count("\n", 0, offset) + 1
  function LineNumber(text: string, offset: nat): nat
    requires offset <= |text|
  {
    Newlines(text[..offset]) + 1
  }

  lemma {:induction false} NewlinesCounted(text: string)
    ensures Newlines(text) == multiset(text)['\n']
  {
    if text != [] {
      NewlinesCounted(text[1..]);
      assert text == [text[0]] + text[1..];
    }
  }

  // The line a reference is recorded under, computed on the stripped text, is
  // the line of the same character in the original file.
  lemma {:induction false} RecordedLineIsOriginal(source: string, offset: nat)
    requires offset < |Strip(source)|
    ensures |CodeAt(source, 0)| == |Strip(source)| && CodeAt(source, 0)[offset] < |source|
    ensures source[CodeAt(source, 0)[offset]] == Strip(source)[offset]
    ensures LineNumber(Strip(source), offset) == LineNumber(source, CodeAt(source, 0)[offset])
    ensures LineNumber(Strip(source), offset) == multiset(source[..CodeAt(source, 0)[offset]])['\n'] + 1
  {
    CodeFaithful(source, 0);
    assert FaithfulAt(source, Code(source), CodeAt(source, 0)[offset], 0, offset);
    NewlinesCounted(source[..CodeAt(source, 0)[offset]]);
  }

  // Later characters stay later, and the number of lines is unchanged.
  lemma {:induction false} StripKeepsOrderAndLines(source: string, i: nat, j: nat)
    requires i < j < |Strip(source)|
    ensures |CodeAt(source, 0)| == |Strip(source)| && CodeAt(source, 0)[i] < CodeAt(source, 0)[j]
    ensures Newlines(Strip(source)) == Newlines(source)
  {
    CodeFaithful(source, 0);
  }
}
