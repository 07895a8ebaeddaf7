/** The glob matcher of lib/common/ch_fnmatch.c.

    A pattern is read as a sequence of tokens.  `Matches` is the declarative
    meaning: the string can be cut into one piece per token so that every token
    accepts its piece (POSIX.1-2017 XCU section 2.13).  `Fnmatch` is the
    backtracking matcher of the program, with its cursors and loops, and it is
    proved to answer 0 exactly when such a cut exists. */
module Fnmatch {

  import opened CStrings

  datatype Flags = Flags(noescape: bool, pathname: bool, period: bool)

  const MATCH := 0
  const NOMATCH := 1

  // ----------------------------------------------------------------- tokens

  datatype Item = One(c: char) | Span(lo: char, hi: char)

  datatype Bracket = Unclosed | Closed(next: nat, items: seq<Item>)

  datatype Token = Star | AnyChar | Lit(c: char) | Class(negate: bool, items: seq<Item>) | Slash

  predicate InItem(c: char, it: Item) {
    match it
    case One(x) => c == x
    case Span(lo, hi) => Ord(lo) <= Ord(c) <= Ord(hi)
  }

  predicate InItems(c: char, items: seq<Item>) {
    exists k :: 0 <= k < |items| && InItem(c, items[k])
  }

  /** The members of a bracket expression whose text starts at i.  `leading`
      says that the character at i is a ']' standing first, which is ordinary. */
  function ScanItems(p: CStr, i: nat, f: Flags, leading: bool): (b: Bracket)
    requires i <= |p| && (leading ==> i < |p|)
    ensures b.Closed? ==> i < b.next <= |p|
    decreases |p| - i
  {
    if i == |p| then Unclosed
    else if !leading && p[i] == ']' then Closed(i + 1, [])
    else
      var j := if !leading && !f.noescape && p[i] == '\\' then i + 1 else i;
      if j == |p| || (!leading && f.pathname && p[j] == '/') then Unclosed
      else
        match ItemAt(p, j, f)
        case None => Unclosed
        case Some(it, next) => Prepend(it, ScanItems(p, next, f, false))
  }

  datatype OptItem = None | Some(it: Item, next: nat)

  /** One member at i, past any escape: a character or a range; "x-]" is no range. */
  function ItemAt(p: CStr, i: nat, f: Flags): (r: OptItem)
    requires i < |p|
    ensures r.Some? ==> i < r.next <= |p|
  {
    if At(p, i + 1) == '-' && At(p, i + 2) != ']' then
      var k := if !f.noescape && At(p, i + 2) == '\\' then i + 3 else i + 2;
      if k == |p| || (f.pathname && p[k] == '/') then None else Some(Span(p[i], p[k]), k + 1)
    else Some(One(p[i]), i + 1)
  }

  function Prepend(it: Item, b: Bracket): Bracket {
    match b
    case Unclosed => Unclosed
    case Closed(n, items) => Closed(n, [it] + items)
  }

  predicate NegatedAt(p: CStr, i: nat)
    requires i < |p|
  {
    At(p, i + 1) == '!' || At(p, i + 1) == '^'
  }

  function ScanBracket(p: CStr, i: nat, f: Flags): (b: Bracket)
    requires i < |p|
    ensures b.Closed? ==> i < b.next <= |p|
  {
    var j := if NegatedAt(p, i) then i + 2 else i + 1;
    ScanItems(p, j, f, At(p, j) == ']')
  }

  /** A slash that separates segments: '/' or, with escapes, "\/". */
  predicate AtSlash(p: CStr, i: nat, f: Flags)
    requires i <= |p|
  {
    f.pathname && (At(p, i) == '/' || (!f.noescape && At(p, i) == '\\' && At(p, i + 1) == '/'))
  }

  /** The token that starts at i and where the following one starts. */
  function TokenAt(p: CStr, i: nat, f: Flags): (r: (Token, nat))
    requires i < |p|
    ensures i < r.1 <= |p|
    ensures f.pathname ==> r.0 != Lit('/')
    ensures r.0 == Slash <==> AtSlash(p, i, f)
    ensures r.0 == Star <==> p[i] == '*'
  {
    if p[i] == '*' then (Star, i + 1)
    else if AtSlash(p, i, f) then (Slash, if p[i] == '/' then i + 1 else i + 2)
    else if p[i] == '?' then (AnyChar, i + 1)
    else if p[i] == '[' then
      match ScanBracket(p, i, f)
      case Unclosed => (Lit('['), i + 1)
      case Closed(n, items) => (Class(NegatedAt(p, i), items), n)
    else if !f.noescape && p[i] == '\\' && i + 1 < |p| then (Lit(p[i + 1]), i + 2)
    else (Lit(p[i]), i + 1)
  }

  function Tokens(p: CStr, i: nat, f: Flags): seq<Token>
    requires i <= |p|
    decreases |p| - i
  {
    if i == |p| then []
    else [TokenAt(p, i, f).0] + Tokens(p, TokenAt(p, i, f).1, f)
  }

  predicate Single(t: Token) {
    t != Star && t != Slash
  }

  predicate Accepts(t: Token, c: char) {
    match t
    case AnyChar => true
    case Lit(x) => c == x
    case Class(negate, items) => InItems(c, items) != negate
    case _ => false
  }

  // ------------------------------------------------- the declarative meaning

  /** A period that only a period standing first in its pattern segment may match. */
  predicate LeadingPeriod(s: CStr, q: nat, f: Flags)
    requires q <= |s|
  {
    f.period && At(s, q) == '.' && (q == 0 || (f.pathname && s[q - 1] == '/'))
  }

  predicate NoSlash(s: CStr, a: nat, b: nat, f: Flags)
    requires a <= b <= |s|
  {
    f.pathname ==> forall q :: a <= q < b ==> s[q] != '/'
  }

  /** Token t may stand for the characters s[a..b]. */
  predicate Piece(t: Token, s: CStr, a: nat, b: nat, f: Flags)
    requires a <= b <= |s|
  {
    && (LeadingPeriod(s, a, f) ==> t == Lit('.'))
    && match t
       case Star => NoSlash(s, a, b, f)
       case Slash => b == a + 1 && s[a] == '/'
       case _ => b == a + 1 && NoSlash(s, a, b, f) && Accepts(t, s[a])
  }

  predicate PieceAt(toks: seq<Token>, s: CStr, cuts: seq<nat>, t: nat, f: Flags)
    requires t < |toks| && |cuts| == |toks| + 1
  {
    cuts[t] <= cuts[t + 1] <= |s| && Piece(toks[t], s, cuts[t], cuts[t + 1], f)
  }

  ghost predicate IsSplit(toks: seq<Token>, s: CStr, cuts: seq<nat>, j: nat, f: Flags) {
    && |cuts| == |toks| + 1
    && cuts[0] == j
    && cuts[|toks|] == |s|
    && forall t: nat :: t < |toks| ==> PieceAt(toks, s, cuts, t, f)
  }

  /** The whole string can be cut into pieces that the tokens accept in order. */
  ghost predicate Matches(p: CStr, s: CStr, f: Flags) {
    exists cuts: seq<nat> :: IsSplit(Tokens(p, 0, f), s, cuts, 0, f)
  }

  // -------------------------------------------- the same meaning, by position

  /** The pattern from i on matches the string from j on. */
  ghost predicate Glob(p: CStr, i: nat, s: CStr, j: nat, f: Flags)
    requires i <= |p| && j <= |s|
    decreases |p| - i
  {
    if i == |p| then j == |s|
    else exists k: nat {:trigger Glob(p, TokenAt(p, i, f).1, s, k, f)} ::
           j <= k <= |s| && Piece(TokenAt(p, i, f).0, s, j, k, f) && Glob(p, TokenAt(p, i, f).1, s, k, f)
  }

  lemma {:induction false} SplitToGlob(p: CStr, i: nat, s: CStr, j: nat, cuts: seq<nat>, f: Flags)
    requires i <= |p| && j <= |s| && IsSplit(Tokens(p, i, f), s, cuts, j, f)
    ensures Glob(p, i, s, j, f)
    decreases |p| - i
  {
    if i < |p| {
      var n, toks := TokenAt(p, i, f).1, Tokens(p, i, f);
      assert toks[1..] == Tokens(p, n, f);
      assert PieceAt(toks, s, cuts, 0, f);
      forall t: nat | t < |toks[1..]|
        ensures PieceAt(toks[1..], s, cuts[1..], t, f)
      {
        assert PieceAt(toks, s, cuts, t + 1, f);
      }
      SplitToGlob(p, n, s, cuts[1], cuts[1..], f);
    }
  }

  lemma {:induction false} GlobToSplit(p: CStr, i: nat, s: CStr, j: nat, f: Flags) returns (cuts: seq<nat>)
    requires i <= |p| && j <= |s| && Glob(p, i, s, j, f)
    ensures IsSplit(Tokens(p, i, f), s, cuts, j, f)
    decreases |p| - i
  {
    if i == |p| {
      cuts := [j];
    } else {
      var t, n := TokenAt(p, i, f).0, TokenAt(p, i, f).1;
      var k: nat :| j <= k <= |s| && Piece(t, s, j, k, f) && Glob(p, n, s, k, f);
      var rest := GlobToSplit(p, n, s, k, f);
      cuts := [j] + rest;
      var toks := Tokens(p, i, f);
      forall u: nat | u < |toks|
        ensures PieceAt(toks, s, cuts, u, f)
      {
        if u > 0 {
          assert PieceAt(Tokens(p, n, f), s, rest, u - 1, f);
        }
      }
    }
  }

  /** The positional reading is the declarative one. */
  lemma GlobIsMatches(p: CStr, s: CStr, f: Flags)
    ensures Glob(p, 0, s, 0, f) <==> Matches(p, s, f)
  {
    if Glob(p, 0, s, 0, f) {
      var cuts := GlobToSplit(p, 0, s, 0, f);
    }
    if Matches(p, s, f) {
      var cuts :| IsSplit(Tokens(p, 0, f), s, cuts, 0, f);
      SplitToGlob(p, 0, s, 0, cuts, f);
    }
  }

  // --------------------------------------------- reasoning inside one segment

  /** From j on, the segment that ends at e holds no slash and no leading period. */
  ghost predicate Plain(s: CStr, j: nat, e: nat, f: Flags) {
    && j <= e <= |s|
    && NoSlash(s, j, e, f)
    && (e < |s| ==> f.pathname && s[e] == '/')
    && (forall q: nat :: j <= q <= e ==> !LeadingPeriod(s, q, f))
  }

  /** What is left to match after a star: the rest, from some later position of the segment. */
  ghost predicate Reach(p: CStr, i: nat, s: CStr, j: nat, e: nat, f: Flags)
    requires i <= |p| && j <= e <= |s|
  {
    exists k: nat :: j <= k <= e && Glob(p, i, s, k, f)
  }

  lemma StarStep(p: CStr, i: nat, s: CStr, j: nat, e: nat, f: Flags)
    requires i < |p| && p[i] == '*' && Plain(s, j, e, f)
    ensures Glob(p, i, s, j, f) <==> Reach(p, i + 1, s, j, e, f)
  {
    assert TokenAt(p, i, f) == (Star, i + 1);
    if Glob(p, i, s, j, f) {
      var k: nat :| j <= k <= |s| && Piece(Star, s, j, k, f) && Glob(p, i + 1, s, k, f);
      assert k <= e;
    }
    if Reach(p, i + 1, s, j, e, f) {
      var k: nat :| j <= k <= e && Glob(p, i + 1, s, k, f);
      assert Piece(Star, s, j, k, f) && Glob(p, TokenAt(p, i, f).1, s, k, f);
    }
  }

  lemma SingleStep(p: CStr, i: nat, s: CStr, j: nat, e: nat, f: Flags)
    requires i < |p| && Single(TokenAt(p, i, f).0) && Plain(s, j, e, f)
    ensures Glob(p, i, s, j, f) <==>
              j < e && Accepts(TokenAt(p, i, f).0, s[j]) && Glob(p, TokenAt(p, i, f).1, s, j + 1, f)
  {
    var t, n := TokenAt(p, i, f).0, TokenAt(p, i, f).1;
    if Glob(p, i, s, j, f) {
      var k: nat :| j <= k <= |s| && Piece(t, s, j, k, f) && Glob(p, n, s, k, f);
      assert k == j + 1;
    }
    if j < e && Accepts(t, s[j]) && Glob(p, n, s, j + 1, f) {
      assert Piece(t, s, j, j + 1, f);
    }
  }

  /** "*?" asks for the same as "?*". */
  lemma StarAnyStep(p: CStr, i: nat, s: CStr, j: nat, e: nat, f: Flags)
    requires i < |p| && p[i] == '?' && Plain(s, j, e, f)
    ensures Reach(p, i, s, j, e, f) <==> j < e && Reach(p, i + 1, s, j + 1, e, f)
  {
    if Reach(p, i, s, j, e, f) {
      var k: nat :| j <= k <= e && Glob(p, i, s, k, f);
      SingleStep(p, i, s, k, e, f);
    }
    if j < e && Reach(p, i + 1, s, j + 1, e, f) {
      var k: nat :| j + 1 <= k <= e && Glob(p, i + 1, s, k, f);
      SingleStep(p, i, s, k - 1, e, f);
    }
  }

  /** "**" asks for the same as "*". */
  lemma StarStarStep(p: CStr, i: nat, s: CStr, j: nat, e: nat, f: Flags)
    requires i < |p| && p[i] == '*' && Plain(s, j, e, f)
    ensures Reach(p, i, s, j, e, f) <==> Reach(p, i + 1, s, j, e, f)
  {
    if Reach(p, i, s, j, e, f) {
      var k: nat :| j <= k <= e && Glob(p, i, s, k, f);
      StarStep(p, i, s, k, e, f);
    }
    if Reach(p, i + 1, s, j, e, f) {
      StarStep(p, i, s, j, e, f);
    }
  }

  /** The fixed run at i: how many single tokens come before the next star or
      the end of the pattern segment, and where that is. */
  function FixedRun(p: CStr, i: nat, f: Flags): (r: (nat, nat))
    requires i <= |p|
    ensures i <= r.1 <= |p|
    ensures r.0 == 0 <==> r.1 == i
    ensures r.1 < |p| ==> p[r.1] == '*' || AtSlash(p, r.1, f)
    decreases |p| - i
  {
    if i == |p| || p[i] == '*' || AtSlash(p, i, f) then (0, i)
    else
      var r := FixedRun(p, TokenAt(p, i, f).1, f);
      (r.0 + 1, r.1)
  }

  /** The n tokens from i on are single and accept the n characters from j on. */
  ghost predicate RunOk(p: CStr, i: nat, n: nat, s: CStr, j: nat, f: Flags)
    requires i <= |p|
    decreases n
  {
    n == 0 || (&& i < |p| && j < |s|
               && Single(TokenAt(p, i, f).0)
               && Accepts(TokenAt(p, i, f).0, s[j])
               && RunOk(p, TokenAt(p, i, f).1, n - 1, s, j + 1, f))
  }

  lemma {:induction false} RunStep(p: CStr, i: nat, s: CStr, j: nat, e: nat, f: Flags)
    requires i <= |p| && Plain(s, j, e, f)
    ensures var r := FixedRun(p, i, f);
            Glob(p, i, s, j, f) <==> j + r.0 <= e && RunOk(p, i, r.0, s, j, f) && Glob(p, r.1, s, j + r.0, f)
    decreases |p| - i
  {
    var r := FixedRun(p, i, f);
    if r.0 > 0 {
      SingleStep(p, i, s, j, e, f);
      if j < e {
        RunStep(p, TokenAt(p, i, f).1, s, j + 1, e, f);
      }
    }
  }

  /** The last fixed run of a segment can only sit at the very end of it. */
  lemma AnchoredRun(p: CStr, i: nat, s: CStr, j: nat, e: nat, f: Flags)
    requires i <= |p| && Plain(s, j, e, f)
    requires var end := FixedRun(p, i, f).1; end == |p| || AtSlash(p, end, f)
    ensures var n := FixedRun(p, i, f).0;
            Reach(p, i, s, j, e, f) <==> j + n <= e && Glob(p, i, s, e - n, f)
  {
    var r := FixedRun(p, i, f);
    if Reach(p, i, s, j, e, f) {
      var k: nat :| j <= k <= e && Glob(p, i, s, k, f);
      RunStep(p, i, s, k, e, f);
      if r.1 < |p| {
        var q: nat :| k + r.0 <= q <= |s| && Piece(TokenAt(p, r.1, f).0, s, k + r.0, q, f);
        assert s[k + r.0] == '/';
      }
      assert k + r.0 == e;
    }
  }

  /** Committing to the leftmost place of a fixed run loses no match. */
  lemma LeftmostRun(p: CStr, i: nat, s: CStr, j: nat, k0: nat, e: nat, f: Flags)
    requires i <= |p| && Plain(s, j, e, f)
    requires var r := FixedRun(p, i, f);
             && r.1 < |p| && p[r.1] == '*'
             && j <= k0 && k0 + r.0 <= e && RunOk(p, i, r.0, s, k0, f)
             && forall k: nat :: j <= k < k0 ==> !RunOk(p, i, r.0, s, k, f)
    ensures var r := FixedRun(p, i, f);
            Reach(p, i, s, j, e, f) <==> Glob(p, r.1, s, k0 + r.0, f)
  {
    var r := FixedRun(p, i, f);
    StarStep(p, r.1, s, k0 + r.0, e, f);
    if Reach(p, i, s, j, e, f) {
      var k: nat :| j <= k <= e && Glob(p, i, s, k, f);
      RunStep(p, i, s, k, e, f);
      StarStep(p, r.1, s, k + r.0, e, f);
      assert k0 <= k;
    }
    if Glob(p, r.1, s, k0 + r.0, f) {
      RunStep(p, i, s, k0, e, f);
    }
  }

  // -------------------------------------------------------------- the matcher

  function PrependAll(seen: seq<Item>, b: Bracket): Bracket {
    match b
    case Unclosed => Unclosed
    case Closed(n, items) => Closed(n, seen + items)
  }

  lemma InItemsAppend(c: char, seen: seq<Item>, it: Item)
    ensures InItems(c, seen + [it]) <==> InItems(c, seen) || InItem(c, it)
  {
    var all := seen + [it];
    assert all[|seen|] == it;
    assert forall k :: 0 <= k < |seen| ==> all[k] == seen[k];
  }

  lemma PrependAllStep(seen: seq<Item>, it: Item, b: Bracket)
    ensures PrependAll(seen, Prepend(it, b)) == PrependAll(seen + [it], b)
  {
    if b.Closed? {
      assert seen + ([it] + b.items) == (seen + [it]) + b.items;
    }
  }

  /** Lines 66-102: compare c with the member at i. */
  method ScanMember(p: CStr, i: nat, f: Flags, c: char) returns (ok: bool, same: bool, next: nat)
    requires i < |p|
    ensures var r := ItemAt(p, i, f);
            ok == r.Some? && (ok ==> next == r.next && same == InItem(c, r.it))
  {
    ok, same, next := true, false, i;
    if At(p, next + 1) == '-' && At(p, next + 2) != ']' {
      var startch := p[next];
      next := next + if !f.noescape && At(p, next + 2) == '\\' then 3 else 2;
      if At(p, next) == '\0' || (f.pathname && p[next] == '/') {
        ok := false;
        return;
      }
      same := Ord(c) >= Ord(startch) && Ord(c) <= Ord(p[next]);
    } else {
      same := c == p[next];
    }
    next := next + 1;
  }

  /** The member loop of a bracket expression (lines 41-103), which compares
      while it scans.  It starts after "[" and the negation. */
  method ScanClass(p: CStr, i: nat, f: Flags, c: char) returns (closed: bool, hit: bool, next: nat)
    requires i <= |p|
    ensures var b := ScanItems(p, i, f, At(p, i) == ']');
            && closed == b.Closed?
            && (closed ==> next == b.next && hit == InItems(c, b.items))
  {
    ghost var whole := ScanItems(p, i, f, At(p, i) == ']');
    ghost var seen: seq<Item> := [];
    var escape := !f.noescape;
    var leading := At(p, i) == ']';
    next, hit, closed := i, false, false;
    while leading || At(p, next) != '\0'
      invariant next <= |p| && (leading ==> next < |p|)
      invariant whole == PrependAll(seen, ScanItems(p, next, f, leading))
      invariant hit == InItems(c, seen)
      decreases |p| - next
    {
      if !leading {
        if p[next] == ']' {
          next, closed := next + 1, true;
          assert seen + [] == seen;
          return;
        }
        if escape && p[next] == '\\' {
          next := next + 1;
          if At(p, next) == '\0' {
            return;
          }
        }
        if f.pathname && p[next] == '/' {
          return;
        }
      }
      leading := false;
      ghost var item := ItemAt(p, next, f);
      var ok, same;
      ok, same, next := ScanMember(p, next, f, c);
      if !ok {
        return;
      }
      if same {
        hit := true;
      }
      InItemsAppend(c, seen, item.it);
      PrependAllStep(seen, item.it, ScanItems(p, next, f, false));
      seen := seen + [item.it];
    }
  }

  /** fnmatch_ch: compare one pattern character with one string character. */
  method FnmatchCh(p: CStr, i: nat, s: CStr, j: nat, f: Flags) returns (result: int, pi: nat, si: nat)
    requires i < |p| && j < |s|
    ensures result == MATCH || result == NOMATCH
    ensures pi <= |p| && si <= |s|
    ensures p[i] != '*' && !AtSlash(p, i, f) && !(f.pathname && s[j] == '/') ==>
              && (result == MATCH <==> Accepts(TokenAt(p, i, f).0, s[j]))
              && pi == TokenAt(p, i, f).1 && si == j + 1
  {
    var escape := !f.noescape;
    result, pi, si := NOMATCH, i, j;
    if p[pi] == '[' {
      pi := pi + 1;
      var negate := At(p, pi) == '!' || At(p, pi) == '^';
      if negate {
        pi := pi + 1;
      }
      var closed, hit, next := ScanClass(p, pi, f, s[j]);
      if closed {
        return (if hit != negate then MATCH else NOMATCH), next, j + 1;
      }
      pi := i;
    } else if p[pi] == '?' {
      if f.pathname && s[si] == '/' {
        return NOMATCH, pi, si;
      }
      return MATCH, pi + 1, si + 1;
    } else if escape && p[pi] == '\\' && At(p, pi + 1) != '\0' {
      pi := pi + 1;
    }
    if s[si] == p[pi] {
      result := MATCH;
    }
    if f.pathname && (s[si] == '/' || p[pi] == '/') {
      return;
    }
    pi, si := pi + 1, si + 1;
  }

  const DUMMY: CStr := " "

  /** Lines 237-283: count the fixed characters up to the next star or the end
      of the pattern segment. */
  method CountFixed(p: CStr, i: nat, f: Flags) returns (matchlen: nat, matchptr: nat)
    requires i <= |p|
    ensures (matchlen, matchptr) == FixedRun(p, i, f)
  {
    var escape := !f.noescape;
    matchlen, matchptr := 0, i;
    while !(At(p, matchptr) == '\0' || AtSlash(p, matchptr, f)) && p[matchptr] != '*'
      invariant matchptr <= |p|
      invariant var r := FixedRun(p, matchptr, f); FixedRun(p, i, f) == (matchlen + r.0, r.1)
      decreases |p| - matchptr
    {
      ghost var was := matchptr;
      if escape && p[matchptr] == '\\' && At(p, matchptr + 1) != '\0' {
        matchptr := matchptr + 2;
      } else if p[matchptr] == '[' {
        var _, next, _ := FnmatchCh(p, matchptr, DUMMY, 0, f);
        matchptr := next;
      } else {
        matchptr := matchptr + 1;
      }
      assert matchptr == TokenAt(p, was, f).1;
      matchlen := matchlen + 1;
    }
  }

  /** What a run of '*' and '?' leaves to be matched. */
  ghost predicate Pending(wild: bool, p: CStr, i: nat, s: CStr, j: nat, e: nat, f: Flags)
    requires i <= |p| && j <= e <= |s|
  {
    if wild then Reach(p, i, s, j, e, f) else Glob(p, i, s, j, f)
  }

  /** Lines 215-227: n times '?' and at most one '*'. */
  method SkipWild(p: CStr, i: nat, s: CStr, j: nat, e: nat, f: Flags)
      returns (ok: bool, wild: bool, pi: nat, si: nat)
    requires i < |p| && Plain(s, j, e, f)
    ensures i <= pi <= |p| && j <= si <= e
    ensures ok ==> (pi < |p| ==> p[pi] != '*' && p[pi] != '?')
    ensures ok ==> (wild || p[i] == '*' || p[i] == '?' ==> i < pi) && (p[i] != '*' && p[i] != '?' ==> pi == i && si == j)
    ensures p[i] == '*' && ok ==> wild
    ensures if ok then Glob(p, i, s, j, f) <==> Pending(wild, p, pi, s, si, e, f) else !Glob(p, i, s, j, f)
  {
    pi, si, wild, ok := i, j, false, true;
    while At(p, pi) == '*' || At(p, pi) == '?'
      invariant i <= pi <= |p| && j <= si <= e
      invariant pi == i ==> si == j && !wild
      invariant pi > i ==> p[i] == '*' || p[i] == '?'
      invariant pi > i && p[i] == '*' ==> wild
      invariant Glob(p, i, s, j, f) <==> Pending(wild, p, pi, s, si, e, f)
      decreases |p| - pi
    {
      if p[pi] == '*' {
        if wild {
          StarStarStep(p, pi, s, si, e, f);
        } else {
          StarStep(p, pi, s, si, e, f);
        }
        wild := true;
      } else {
        if wild {
          StarAnyStep(p, pi, s, si, e, f);
        } else {
          SingleStep(p, pi, s, si, e, f);
        }
        if si < e {
          si := si + 1;
        } else {
          ok := false;
          return;
        }
      }
      pi := pi + 1;
    }
  }

  /** Lines 288-321 with `wild`: slide the fixed run of length n to its leftmost place. */
  method MatchFloating(p: CStr, i: nat, s: CStr, j: nat, e: nat, n: nat, f: Flags)
      returns (ok: bool, pi: nat, si: nat)
    requires i <= |p| && Plain(s, j, e, f)
    requires FixedRun(p, i, f).0 == n && j + n <= e
    requires FixedRun(p, i, f).1 < |p| && p[FixedRun(p, i, f).1] == '*'
    ensures i <= pi <= |p| && j <= si <= e
    ensures if ok then (Reach(p, i, s, j, e, f) <==> Glob(p, pi, s, si, f)) && pi < |p| && p[pi] == '*'
            else !Reach(p, i, s, j, e, f)
  {
    var strstartseg := j;
    pi, si, ok := i, j, true;
    while At(p, pi) != '\0' && si < e
      invariant i <= pi <= FixedRun(p, i, f).1
      invariant j <= strstartseg <= si && strstartseg + n <= e
      invariant FixedRun(p, pi, f) == (n - (si - strstartseg), FixedRun(p, i, f).1)
      invariant RunOk(p, i, n, s, strstartseg, f) <==> RunOk(p, pi, FixedRun(p, pi, f).0, s, si, f)
      invariant forall k: nat :: j <= k < strstartseg ==> !RunOk(p, i, n, s, k, f)
      decreases e - strstartseg, |p| - pi
    {
      if p[pi] == '*' {
        break;
      }
      if f.pathname && (s[si] == '/' || AtSlash(p, pi, f)) {
        break;
      }
      var result, p1, s1 := FnmatchCh(p, pi, s, si, f);
      if result == MATCH {
        pi, si := p1, s1;
        continue;
      }
      strstartseg := strstartseg + 1;
      si := strstartseg;
      if si + n > e {
        ok := false;
        si := e;
        NoRun(p, i, s, j, e, f);
        return;
      }
      pi := i;
    }
    LeftmostRun(p, i, s, j, strstartseg, e, f);
  }

  lemma NoRun(p: CStr, i: nat, s: CStr, j: nat, e: nat, f: Flags)
    requires i <= |p| && Plain(s, j, e, f)
    requires forall k: nat :: j <= k && k + FixedRun(p, i, f).0 <= e ==> !RunOk(p, i, FixedRun(p, i, f).0, s, k, f)
    ensures !Reach(p, i, s, j, e, f)
  {
    if Reach(p, i, s, j, e, f) {
      var k: nat :| j <= k <= e && Glob(p, i, s, k, f);
      RunStep(p, i, s, k, e, f);
    }
  }

  /** Lines 288-321 without `wild`: match character by character. */
  method MatchFixed(p: CStr, i: nat, s: CStr, j: nat, e: nat, f: Flags)
      returns (ok: bool, pi: nat, si: nat)
    requires i <= |p| && Plain(s, j, e, f)
    ensures i <= pi <= |p| && j <= si <= e
    ensures if ok then Glob(p, i, s, j, f) <==> Glob(p, pi, s, si, f) else !Glob(p, i, s, j, f)
    ensures ok && i < |p| && j < e && p[i] != '*' && !AtSlash(p, i, f) ==> i < pi
  {
    pi, si, ok := i, j, true;
    while At(p, pi) != '\0' && si < e
      invariant i <= pi <= |p| && j <= si <= e
      invariant pi == i ==> si == j
      invariant Glob(p, i, s, j, f) <==> Glob(p, pi, s, si, f)
      decreases |p| - pi
    {
      if p[pi] == '*' {
        break;
      }
      if f.pathname && (s[si] == '/' || AtSlash(p, pi, f)) {
        break;
      }
      SingleStep(p, pi, s, si, e, f);
      var result, p1, s1 := FnmatchCh(p, pi, s, si, f);
      if result != MATCH {
        ok := false;
        return;
      }
      pi, si := p1, s1;
    }
  }

  /** Lines 201-322: match one segment of the string, which ends at e. */
  method MatchSegment(p: CStr, i: nat, s: CStr, j: nat, e: nat, f: Flags)
      returns (ok: bool, pi: nat, si: nat)
    requires i <= |p| && Plain(s, j, e, f)
    ensures i <= pi <= |p| && j <= si <= e
    ensures if ok then Glob(p, i, s, j, f) <==> Glob(p, pi, s, si, f) else !Glob(p, i, s, j, f)
    ensures ok ==> pi == |p| || AtSlash(p, pi, f) || (si == e && p[pi] != '*')
    ensures AtSlash(p, i, f) ==> ok && pi == i && si == j
  {
    pi, si, ok := i, j, true;
    while At(p, pi) != '\0'
      invariant i <= pi <= |p| && j <= si <= e
      invariant Glob(p, i, s, j, f) <==> Glob(p, pi, s, si, f)
      invariant AtSlash(p, i, f) ==> pi == i && si == j
      decreases |p| - pi
    {
      if si == e && p[pi] != '*' {
        break;
      }
      if AtSlash(p, pi, f) {
        break;
      }
      var wild;
      ghost var was := pi;
      ok, wild, pi, si := SkipWild(p, pi, s, si, e, f);
      if !ok {
        return;
      }
      if wild {
        var matchlen, matchptr := CountFixed(p, pi, f);
        if si + matchlen > e {
          ok := false;
          NoRun(p, pi, s, si, e, f);
          return;
        }
        if At(p, matchptr) == '\0' || AtSlash(p, matchptr, f) {
          AnchoredRun(p, pi, s, si, e, f);
          si := e - matchlen;
          ok, pi, si := MatchFixed(p, pi, s, si, e, f);
        } else {
          ok, pi, si := MatchFloating(p, pi, s, si, e, matchlen, f);
        }
      } else {
        ok, pi, si := MatchFixed(p, pi, s, si, e, f);
      }
      if !ok {
        return;
      }
    }
  }

  /** strchr of '/' in PATHNAME mode, else of the terminator (lines 190-197). */
  method SegmentEnd(s: CStr, j: nat, f: Flags) returns (e: nat)
    requires j <= |s|
    ensures j <= e <= |s| && NoSlash(s, j, e, f) && (e < |s| ==> f.pathname && s[e] == '/')
  {
    if !f.pathname {
      return |s|;
    }
    e := j;
    while At(s, e) != '\0' && s[e] != '/'
      invariant j <= e <= |s|
      invariant forall q :: j <= q < e ==> s[q] != '/'
      decreases |s| - e
    {
      e := e + 1;
    }
  }

  /** A leading period is consumed by a literal period standing first, or not at all. */
  lemma PeriodStep(p: CStr, i: nat, s: CStr, j: nat, f: Flags)
    requires i <= |p| && j <= |s| && LeadingPeriod(s, j, f)
    ensures Glob(p, i, s, j, f) <==>
              i < |p| && TokenAt(p, i, f).0 == Lit('.') && Glob(p, TokenAt(p, i, f).1, s, j + 1, f)
  {
    if i < |p| && TokenAt(p, i, f).0 == Lit('.') {
      assert Piece(Lit('.'), s, j, j + 1, f);
    }
  }

  /** Balanced slashes start a new segment on both sides. */
  lemma SlashStep(p: CStr, i: nat, s: CStr, j: nat, f: Flags)
    requires i < |p| && j <= |s| && AtSlash(p, i, f)
    ensures Glob(p, i, s, j, f) <==>
              j < |s| && s[j] == '/' && Glob(p, TokenAt(p, i, f).1, s, j + 1, f)
  {
    if j < |s| && s[j] == '/' {
      assert Piece(Slash, s, j, j + 1, f);
    }
  }

  predicate SegmentStart(s: CStr, j: nat, f: Flags)
    requires j <= |s|
  {
    j == 0 || (f.pathname && s[j - 1] == '/')
  }

  /** Lines 162-184: step over balanced slashes, then check the leading period. */
  method EnterSegment(p: CStr, i: nat, s: CStr, j: nat, f: Flags, jumped: bool)
      returns (ok: bool, pi: nat, si: nat)
    requires i <= |p| && j <= |s| && (jumped || (i < |p| && j < |s|))
    requires SegmentStart(s, j, f) || (!jumped && AtSlash(p, i, f) && f.pathname && s[j] == '/')
    ensures i <= pi <= |p| && j <= si <= |s|
    ensures if ok then (Glob(p, i, s, j, f) <==> Glob(p, pi, s, si, f)) && !LeadingPeriod(s, si, f)
            else !Glob(p, i, s, j, f)
    ensures ok && pi == i ==> si == j && !(!jumped && AtSlash(p, i, f) && s[j] == '/')
    ensures ok && j == si && !jumped ==> (AtSlash(p, i, f) <==> AtSlash(p, pi, f))
  {
    var escape := !f.noescape;
    pi, si, ok := i, j, true;
    if !jumped {
      if f.pathname && escape && p[pi] == '\\' && At(p, pi + 1) == '/' {
        SlashStep(p, pi, s, si, f);
        pi := pi + 1;
        SlashStep(p, pi, s, si, f);
      }
      if f.pathname && p[pi] == '/' && s[si] == '/' {
        SlashStep(p, pi, s, si, f);
        pi, si := pi + 1, si + 1;
      }
    }
    ok, pi, si := CheckPeriod(p, pi, s, si, f);
  }

  /** Lines 173-184: at the start of a segment a period must be matched by a period. */
  method CheckPeriod(p: CStr, i: nat, s: CStr, j: nat, f: Flags) returns (ok: bool, pi: nat, si: nat)
    requires i <= |p| && j <= |s| && SegmentStart(s, j, f)
    ensures i <= pi <= |p| && j <= si <= |s| && (pi == i <==> si == j)
    ensures if ok then (Glob(p, i, s, j, f) <==> Glob(p, pi, s, si, f)) && !LeadingPeriod(s, si, f)
            else !Glob(p, i, s, j, f)
  {
    pi, si, ok := i, j, true;
    if f.period && At(s, si) == '.' {
      PeriodStep(p, pi, s, si, f);
      if At(p, pi) == '.' {
        pi := pi + 1;
      } else if !f.noescape && At(p, pi) == '\\' && At(p, pi + 1) == '.' {
        pi := pi + 2;
      } else {
        ok := false;
        return;
      }
      si := si + 1;
    }
  }

  lemma PlainSegment(s: CStr, j: nat, e: nat, f: Flags)
    requires j <= e <= |s| && NoSlash(s, j, e, f) && (e < |s| ==> f.pathname && s[e] == '/')
    requires !LeadingPeriod(s, j, f)
    ensures Plain(s, j, e, f)
  {
  }

  /** ch_fnmatch: 0 exactly when the string matches the pattern, for every
      pattern, string and combination of flags. */
  method Fnmatch(pattern: CStr, string_: CStr, f: Flags) returns (rc: int)
    ensures rc == MATCH || rc == NOMATCH
    ensures rc == MATCH <==> Matches(pattern, string_, f)
  {
    var p, s, escape := pattern, string_, !f.noescape;
    var pi, si: nat := 0, 0;
    ghost var goal := Glob(p, 0, s, 0, f);
    GlobIsMatches(p, s, f);
    // `first` stands for the jump of line 158 into the loop body.
    var first := At(p, 0) == '*';
    while first || (At(p, pi) != '\0' && At(s, si) != '\0')
      invariant pi <= |p| && si <= |s|
      invariant first ==> pi == 0 && si == 0
      invariant goal <==> Glob(p, pi, s, si, f)
      invariant (pi == 0 && si == 0 && (first || At(p, 0) != '*')) ||
                ((pi == |p| || AtSlash(p, pi, f)) && (si == |s| || (f.pathname && s[si] == '/')))
      decreases first, |p| - pi
    {
      var ok;
      ok, pi, si := EnterSegment(p, pi, s, si, f, first);
      if !ok {
        return NOMATCH;
      }
      var strendseg := SegmentEnd(s, si, f);
      PlainSegment(s, si, strendseg, f);
      ok, pi, si := MatchSegment(p, pi, s, si, strendseg, f);
      if !ok {
        return NOMATCH;
      }
      EndOfSegment(p, pi, s, si, strendseg, f);
      if At(s, si) != '\0' && !(f.pathname && s[si] == '/') {
        return NOMATCH;
      }
      if At(p, pi) != '\0' && !AtSlash(p, pi, f) {
        return NOMATCH;
      }
      first := false;
    }
    if At(s, si) == '\0' && At(p, pi) == '\0' {
      return MATCH;
    }
    if At(p, pi) != '\0' {
      NothingLeft(p, pi, s, f);
    }
    return NOMATCH;
  }

  /** Only a star can stand for the empty rest of a string. */
  lemma NothingLeft(p: CStr, i: nat, s: CStr, f: Flags)
    requires i < |p| && p[i] != '*'
    ensures !Glob(p, i, s, |s|, f)
  {
  }

  /** Where a segment stops short on one side only, nothing can match. */
  lemma EndOfSegment(p: CStr, i: nat, s: CStr, j: nat, e: nat, f: Flags)
    requires i <= |p| && Plain(s, j, e, f)
    requires i == |p| || AtSlash(p, i, f) || (j == e && p[i] != '*')
    ensures j < e ==> !Glob(p, i, s, j, f)
    ensures i < |p| && !AtSlash(p, i, f) ==> !Glob(p, i, s, j, f)
  {
    if i < |p| {
      if AtSlash(p, i, f) {
        SlashStep(p, i, s, j, f);
      } else {
        SingleStep(p, i, s, j, e, f);
      }
    }
  }
}
