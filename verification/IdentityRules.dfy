// The pure part of migrations/versions/0069_journal_instrument_identity.py: which
// observed instrument ids are US option ids in disguise, and their canonical form.
module IdentityRules {
  import opened Wrappers

  // str.upper on one character, and the characters \d matches.
  datatype Unicode = Unicode(upper: char -> string, digit: char -> bool)

  // What the repair relies on: upper-case letters, dots and digits are fixed by
  // str.upper, and a blank is not a digit.
  ghost predicate Sane(u: Unicode) {
    && !u.digit(' ')
    && forall c :: u.digit(c) || IsUpper(c) || '0' <= c <= '9' || c == '.' ==> u.upper(c) == [c]
  }

  predicate IsUpper(c: char) {
    'A' <= c <= 'Z'
  }

  function IndexOf(s: string, c: char): (r: nat)
    ensures r <= |s|
    ensures r < |s| ==> s[r] == c
    ensures forall i :: 0 <= i < r ==> s[i] != c
  {
    if s == [] || s[0] == c then 0 else 1 + IndexOf(s[1..], c)
  }

  datatype Parts = Parts(asset: string, market: string, symbol: string)

  // instrument_id.split(":", 2) when it yields three parts.
  function SplitId(id: string): Option<Parts> {
    var i := IndexOf(id, ':');
    if i == |id| then None
    else
      var rest := id[i + 1..];
      var j := IndexOf(rest, ':');
      if j == |rest| then None else Some(Parts(id[..i], rest[..j], rest[j + 1..]))
  }

  // symbol.replace(" ", "").upper()
  function Normalized(u: Unicode, s: string): string {
    if s == [] then []
    else (if s[0] == ' ' then [] else u.upper(s[0])) + Normalized(u, s[1..])
  }

  predicate RootChar(c: char) {
    IsUpper(c) || '0' <= c <= '9' || c == '.'
  }

  predicate AllDigits(u: Unicode, s: string) {
    forall i :: 0 <= i < |s| ==> u.digit(s[i])
  }

  // ^[A-Z0-9.]{1,8}\d{6}[CP]\d+$ with a root of n characters
  predicate MatchesAt(u: Unicode, s: string, n: nat) {
    && 1 <= n <= 8 && n + 8 <= |s|
    && (forall i :: 0 <= i < n ==> RootChar(s[i]))
    && AllDigits(u, s[n..n + 6])
    && (s[n + 6] == 'C' || s[n + 6] == 'P')
    && AllDigits(u, s[n + 7..])
  }

  predicate OptionSymbol(u: Unicode, s: string) {
    exists n: nat :: n <= 8 && MatchesAt(u, s, n)
  }

  // _canonical_option_id
  function Canonical(u: Unicode, id: string): Option<string> {
    var parts := SplitId(id);
    if parts.None? || parts.value.market != "US" then None
    else
      var symbol := Normalized(u, parts.value.symbol);
      if OptionSymbol(u, symbol) then Some("option:US:" + symbol) else None
  }

  lemma {:induction false} SplitJoined(asset: string, market: string, symbol: string)
    requires ':' !in asset && ':' !in market
    ensures SplitId(asset + ":" + market + ":" + symbol) == Some(Parts(asset, market, symbol))
  {
    hide IndexOf;
    var id := asset + ":" + market + ":" + symbol;
    var tail := market + ":" + symbol;
    assert id == asset + ":" + tail;
    IndexAfter(asset, tail);
    IndexAfter(market, symbol);
    assert id[|asset| + 1..] == tail && tail[|market| + 1..] == symbol;
  }

  lemma {:induction false} IndexAfter(head: string, tail: string)
    requires ':' !in head
    ensures IndexOf(head + ":" + tail, ':') == |head|
    ensures (head + ":" + tail)[..|head|] == head
  {
    var s := head + ":" + tail;
    assert s[|head|] == ':';
    assert forall i :: 0 <= i < |head| ==> s[i] == head[i];
  }

  lemma {:induction false} NormalizedFixed(u: Unicode, s: string)
    requires forall i :: 0 <= i < |s| ==> s[i] != ' ' && u.upper(s[i]) == [s[i]]
    ensures Normalized(u, s) == s
  {
    if s != [] {
      NormalizedFixed(u, s[1..]);
      assert s == [s[0]] + s[1..];
    }
  }

  lemma {:induction false} OptionCharsFixed(u: Unicode, s: string)
    requires Sane(u) && OptionSymbol(u, s)
    ensures forall i :: 0 <= i < |s| ==> s[i] != ' ' && u.upper(s[i]) == [s[i]]
  {
    var n: nat :| n <= 8 && MatchesAt(u, s, n);
    forall i | 0 <= i < |s| ensures s[i] != ' ' && u.upper(s[i]) == [s[i]] {
      if i < n {
        assert RootChar(s[i]);
      } else if i < n + 6 {
        assert u.digit(s[n..n + 6][i - n]);
      } else if i > n + 6 {
        assert u.digit(s[n + 7..][i - n - 7]);
      }
    }
  }

  // A canonical id is its own canonical form, so no repair is ever repaired again.
  lemma {:induction false} CanonicalIdempotent(u: Unicode, id: string)
    requires Sane(u) && Canonical(u, id).Some?
    ensures Canonical(u, Canonical(u, id).value) == Canonical(u, id)
  {
    hide OptionSymbol, Normalized, SplitId, Sane;
    var symbol := Normalized(u, SplitId(id).value.symbol);
    OptionCharsFixed(u, symbol);
    NormalizedFixed(u, symbol);
    SplitJoined("option", "US", symbol);
    assert "option:US:" + symbol == "option" + ":" + "US" + ":" + symbol;
  }

  // The two GDXU ids are no option ids.
  lemma {:induction false} ShortSymbolIsNoOption(u: Unicode, id: string, asset: string, symbol: string)
    requires id == asset + ":" + "US" + ":" + symbol && ':' !in asset
    requires |symbol| < 9 && (forall i :: 0 <= i < |symbol| ==> u.upper(symbol[i]) == [symbol[i]])
    ensures Canonical(u, id) == None
  {
    SplitJoined(asset, "US", symbol);
    NormalizedShort(u, symbol);
  }

  lemma {:induction false} NormalizedShort(u: Unicode, s: string)
    requires forall i :: 0 <= i < |s| ==> |u.upper(s[i])| <= 1
    ensures |Normalized(u, s)| <= |s|
  {
    if s != [] {
      NormalizedShort(u, s[1..]);
    }
  }

  // ---- which ids are rewritten ----

  lemma {:induction false} NormalizedConcat(u: Unicode, a: string, b: string)
    ensures Normalized(u, a + b) == Normalized(u, a) + Normalized(u, b)
  {
    if a == [] {
      assert a + b == b;
    } else {
      assert (a + b)[1..] == a[1..] + b;
      NormalizedConcat(u, a[1..], b);
    }
  }

  lemma {:induction false} NormalizedBlanks(u: Unicode, blanks: string)
    requires forall i :: 0 <= i < |blanks| ==> blanks[i] == ' '
    ensures Normalized(u, blanks) == ""
  {
    if blanks != [] {
      NormalizedBlanks(u, blanks[1..]);
    }
  }

  predicate IsRoot(root: string) {
    1 <= |root| <= 8 && forall i :: 0 <= i < |root| ==> RootChar(root[i])
  }

  predicate IsTail(u: Unicode, tail: string) {
    |tail| >= 8 && AllDigits(u, tail[..6]) && (tail[6] == 'C' || tail[6] == 'P') && AllDigits(u, tail[7..])
  }

  // A root of 1 to 8 characters, six digits, C or P and a strike, with blanks
  // between root and date, is rewritten to the compact option id whatever asset
  // type it was recorded under.
  lemma {:induction false} PaddedOptionIsPacked(u: Unicode, asset: string, root: string, blanks: string, tail: string)
    requires Sane(u) && ':' !in asset && IsRoot(root) && IsTail(u, tail)
    requires forall i :: 0 <= i < |blanks| ==> blanks[i] == ' '
    ensures Canonical(u, asset + ":" + "US" + ":" + (root + blanks + tail)) == Some("option:US:" + (root + tail))
  {
    hide Sane, SplitId, OptionSymbol, Normalized, IsRoot, IsTail;
    SplitJoined(asset, "US", root + blanks + tail);
    PackedSymbol(u, root, tail);
    OptionCharsFixed(u, root + tail);
    assert forall i :: 0 <= i < |root| ==> root[i] == (root + tail)[i];
    assert forall i :: 0 <= i < |tail| ==> tail[i] == (root + tail)[|root| + i];
    NormalizedFixed(u, root);
    NormalizedFixed(u, tail);
    NormalizedBlanks(u, blanks);
    NormalizedConcat(u, root + blanks, tail);
    NormalizedConcat(u, root, blanks);
    assert root + "" == root;
  }

  lemma {:induction false} PackedSymbol(u: Unicode, root: string, tail: string)
    requires IsRoot(root) && IsTail(u, tail)
    ensures OptionSymbol(u, root + tail)
  {
    var s, n := root + tail, |root|;
    assert s[n..n + 6] == tail[..6] && s[n + 7..] == tail[7..] && s[n + 6] == tail[6];
    assert MatchesAt(u, s, n);
  }

  // ---- exactly which ids, written out ----

  // root, six digits, C or P, strike
  ghost predicate Reads(u: Unicode, s: string, root: string, date: string, side: char, strike: string) {
    && s == root + date + [side] + strike
    && 1 <= |root| <= 8 && (forall c :: c in root ==> 'A' <= c <= 'Z' || '0' <= c <= '9' || c == '.')
    && |date| == 6 && (forall c :: c in date ==> u.digit(c))
    && side in {'C', 'P'}
    && strike != "" && (forall c :: c in strike ==> u.digit(c))
  }

  lemma {:induction false} ReadsAt(u: Unicode, s: string, root: string, date: string, side: char, strike: string)
    requires Reads(u, s, root, date, side, strike)
    ensures MatchesAt(u, s, |root|)
  {
    var n := |root|;
    assert s[..n] == root && s[n..n + 6] == date && s[n + 6] == side && s[n + 7..] == strike;
    forall i | 0 <= i < n ensures RootChar(s[i]) {
      assert s[i] == root[i] && root[i] in root;
    }
    assert forall i :: 0 <= i < 6 ==> date[i] in date;
    assert forall i :: 0 <= i < |strike| ==> strike[i] in strike;
  }

  lemma {:induction false} OptionSymbolIff(u: Unicode, s: string)
    ensures OptionSymbol(u, s) <==> exists root, date, side, strike :: Reads(u, s, root, date, side, strike)
  {
    if OptionSymbol(u, s) {
      var n: nat :| n <= 8 && MatchesAt(u, s, n);
      assert s == s[..n] + s[n..n + 6] + [s[n + 6]] + s[n + 7..];
      assert Reads(u, s, s[..n], s[n..n + 6], s[n + 6], s[n + 7..]);
    }
    if root, date, side, strike :| Reads(u, s, root, date, side, strike) {
      ReadsAt(u, s, root, date, side, strike);
    }
  }

  // The normal form is taken character by character.
  lemma {:induction false} NormalizedOne(u: Unicode, c: char)
    ensures Normalized(u, [c]) == if c == ' ' then "" else u.upper(c)
  {
    assert [c][1..] == [];
  }

  lemma {:induction false} JoinSplit(id: string)
    requires SplitId(id).Some?
    ensures var parts := SplitId(id).value;
            id == parts.asset + ":" + parts.market + ":" + parts.symbol && ':' !in parts.asset && ':' !in parts.market
  {
    hide IndexOf;
    var i := IndexOf(id, ':');
    var rest := id[i + 1..];
    CutAt(id, i);
    CutAt(rest, IndexOf(rest, ':'));
  }

  lemma {:induction false} CutAt(s: string, i: nat)
    requires i < |s| && s[i] == ':'
    ensures s == s[..i] + ":" + s[i + 1..]
  {
  }

  // An id that says it is a US instrument with this symbol.
  ghost predicate OfUs(id: string, asset: string, symbol: string) {
    ':' !in asset && id == asset + ":" + "US" + ":" + symbol
  }

  lemma {:induction false} UsParts(id: string, asset: string, symbol: string)
    ensures OfUs(id, asset, symbol) <==> SplitId(id) == Some(Parts(asset, "US", symbol))
  {
    hide SplitId;
    if OfUs(id, asset, symbol) {
      SplitJoined(asset, "US", symbol);
    }
    if SplitId(id) == Some(Parts(asset, "US", symbol)) {
      JoinSplit(id);
    }
  }

  // An id has a canonical form exactly when it is an id of the US market, under any
  // asset type, whose symbol is an option symbol once blanks are dropped and letters
  // are upper case; the form is that symbol as an option id.
  lemma {:induction false} CanonicalIff(u: Unicode, id: string, target: string)
    ensures Canonical(u, id) == Some(target) <==>
            exists asset, symbol, root, date, side, strike ::
              && OfUs(id, asset, symbol) && Reads(u, Normalized(u, symbol), root, date, side, strike)
              && target == "option:US:" + Normalized(u, symbol)
  {
    forall asset, symbol ensures OfUs(id, asset, symbol) <==> SplitId(id) == Some(Parts(asset, "US", symbol)) {
      UsParts(id, asset, symbol);
    }
    forall s
      ensures OptionSymbol(u, s) <==> exists root, date, side, strike :: Reads(u, s, root, date, side, strike)
    {
      OptionSymbolIff(u, s);
    }
    hide OfUs, SplitId, OptionSymbol, Reads, Normalized;
    if Canonical(u, id) == Some(target) {
      var parts := SplitId(id).value;
      assert SplitId(id) == Some(Parts(parts.asset, "US", parts.symbol));
      assert OfUs(id, parts.asset, parts.symbol) && OptionSymbol(u, Normalized(u, parts.symbol));
      var root, date, side, strike :| Reads(u, Normalized(u, parts.symbol), root, date, side, strike);
    }
  }

  // The padded ids are those of the same symbols.
  lemma {:induction false} PartsMean(u: Unicode, root: string, tail: string)
    ensures IsRoot(root) && IsTail(u, tail) <==>
            exists date, side, strike ::
              tail == date + [side] + strike && Reads(u, root + tail, root, date, side, strike)
  {
    if IsRoot(root) && IsTail(u, tail) {
      assert tail == tail[..6] + [tail[6]] + tail[7..];
      assert Reads(u, root + tail, root, tail[..6], tail[6], tail[7..]);
    }
    if date, side, strike :| tail == date + [side] + strike && Reads(u, root + tail, root, date, side, strike) {
      assert tail[..6] == date && tail[6] == side && tail[7..] == strike;
      assert forall i :: 0 <= i < |root| ==> root[i] in root;
      assert forall i :: 0 <= i < 6 ==> date[i] in date;
      assert forall i :: 0 <= i < |strike| ==> strike[i] in strike;
    }
  }
}
