/** ch_fnmatch_test of lib/common/ch_fnmatch.c: does a pattern hold glob
    characters?  Its escape and bracket scan is related to the matcher's own. */
module FnmatchTest {
  import opened CStrings
  import opened Fnmatch

  const PLAIN := Flags(false, false, false)

  /** Some unescaped '?' or '*', or an unescaped ']' after an unescaped '['. */
  predicate HasGlob(p: CStr, i: nat, nested: bool)
    requires i <= |p|
    decreases |p| - i
  {
    i < |p| &&
    match p[i]
    case '?' => true
    case '*' => true
    case '\\' => i + 1 < |p| && HasGlob(p, i + 2, nested)
    case '[' => HasGlob(p, i + 1, true)
    case ']' => nested || HasGlob(p, i + 1, nested)
    case _ => HasGlob(p, i + 1, nested)
  }

  method Test(p: CStr) returns (rc: int)
    ensures rc == if HasGlob(p, 0, false) then 1 else 0
  {
    var i, nesting := 0, 0;
    while At(p, i) != '\0'
      invariant i <= |p| && nesting >= 0
      invariant HasGlob(p, 0, false) == HasGlob(p, i, nesting > 0)
      decreases |p| - i
    {
      match p[i] {
        case '?' => return 1;
        case '*' => return 1;
        case '\\' =>
          i := i + 1;
          if At(p, i) == '\0' {
            return 0;
          }
        case '[' => nesting := nesting + 1;
        case ']' =>
          if nesting != 0 {
            return 1;
          }
        case _ =>
      }
      i := i + 1;
    }
    return 0;
  }

  // --------------------------------------------- the scan by the text alone

  /** How many backslashes stand right before i. */
  function Slashes(p: CStr, i: nat): nat
    requires i <= |p|
  {
    if i == 0 || p[i - 1] != '\\' then 0 else 1 + Slashes(p, i - 1)
  }

  /** The character at i stands for itself as a pattern character: an even number of backslashes is before it, and
      it is none itself. */
  predicate Active(p: CStr, i: nat)
    requires i < |p|
  {
    p[i] != '\\' && Slashes(p, i) % 2 == 0
  }

  /** A character that makes a pattern of the text: '?' or '*', or a ']' with a '[' somewhere before it. */
  predicate GlobAt(p: CStr, i: nat)
    requires i < |p|
  {
    Active(p, i) && (p[i] == '?' || p[i] == '*' || (p[i] == ']' && exists j :: 0 <= j < i && Active(p, j) && p[j] == '['))
  }

  /** The scan is at i, with `nested` telling that an opening bracket was met. */
  predicate ScanAt(p: CStr, i: nat, nested: bool)
    requires i <= |p|
  {
    Slashes(p, i) % 2 == 0 && (nested <==> exists j :: 0 <= j < i && Active(p, j) && p[j] == '[')
  }

  lemma {:induction false} ScanOver(p: CStr, i: nat, nested: bool)
    requires i < |p| && ScanAt(p, i, nested) && p[i] != '\\'
    ensures ScanAt(p, i + 1, nested || p[i] == '[')
    ensures GlobAt(p, i) <==> p[i] == '?' || p[i] == '*' || (p[i] == ']' && nested)
  {
    assert Active(p, i);
  }

  lemma {:induction false} AfterEscape(p: CStr, i: nat)
    requires i + 1 < |p| && Slashes(p, i) % 2 == 0 && p[i] == '\\'
    ensures Slashes(p, i + 2) % 2 == 0 && !Active(p, i) && !Active(p, i + 1)
  {
    var n := Slashes(p, i);
    assert Slashes(p, i + 1) == n + 1 && (n + 1) % 2 == 1;
    assert Slashes(p, i + 2) == if p[i + 1] == '\\' then n + 2 else 0;
  }

  lemma {:induction false} ScanEscape(p: CStr, i: nat, nested: bool)
    requires i + 1 < |p| && ScanAt(p, i, nested) && p[i] == '\\'
    ensures ScanAt(p, i + 2, nested) && !GlobAt(p, i) && !GlobAt(p, i + 1)
  {
    AfterEscape(p, i);
  }

  lemma {:induction false} ScanExactly(p: CStr, i: nat, nested: bool)
    requires i <= |p| && ScanAt(p, i, nested)
    ensures HasGlob(p, i, nested) <==> exists k :: i <= k < |p| && GlobAt(p, k)
    decreases |p| - i
  {
    if i < |p| {
      if p[i] == '\\' {
        assert !GlobAt(p, i);
        if i + 1 < |p| {
          ScanEscape(p, i, nested);
          ScanExactly(p, i + 2, nested);
        }
      } else {
        ScanOver(p, i, nested);
        ScanExactly(p, i + 1, nested || p[i] == '[');
      }
    }
  }

  /** The scan answers by the text alone: the pattern has an unescaped '?' or '*', or an unescaped ']' with an
      unescaped '[' before it, where escaped means behind an odd number of backslashes. */
  lemma HasGlobExactly(p: CStr)
    ensures HasGlob(p, 0, false) <==> exists k :: 0 <= k < |p| && GlobAt(p, k)
  {
    ScanExactly(p, 0, false);
  }

  // -------------------------------------------------- patterns without glob characters

  /** The characters the pattern stands for once backslashes are removed. */
  function Unescape(p: CStr, i: nat): seq<char>
    requires i <= |p|
    decreases |p| - i
  {
    if i == |p| then []
    else if p[i] == '\\' && i + 1 < |p| then [p[i + 1]] + Unescape(p, i + 2)
    else [p[i]] + Unescape(p, i + 1)
  }

  /** Where the test sees no closing bracket, the matcher's bracket scan finds none either. */
  lemma {:induction false} NeverCloses(p: CStr, i: nat)
    requires i <= |p| && !HasGlob(p, i, true)
    ensures ScanItems(p, i, PLAIN, false) == Unclosed
    decreases |p| - i
  {
    if i < |p| {
      var j := if p[i] == '\\' then i + 1 else i;
      if j < |p| {
        assert !HasGlob(p, j + 1, true);
        var item := ItemAt(p, j, PLAIN);
        if item.Some? {
          if At(p, j + 1) == '-' {
            assert !HasGlob(p, j + 2, true);
          }
          assert !HasGlob(p, item.next, true);
          NeverCloses(p, item.next);
        }
      }
    }
  }

  lemma LiteralToken(p: CStr, i: nat)
    requires i < |p| && !HasGlob(p, i, false)
    ensures var r := TokenAt(p, i, PLAIN);
            r.0.Lit? && !HasGlob(p, r.1, false) && Unescape(p, i) == [r.0.c] + Unescape(p, r.1)
  {
    if p[i] == '[' {
      NotNested(p, i + 1);
      NeverCloses(p, if NegatedAt(p, i) then i + 2 else i + 1);
    }
  }

  /** Outside brackets fewer patterns are globs. */
  lemma {:induction false} NotNested(p: CStr, i: nat)
    requires i <= |p| && !HasGlob(p, i, true)
    ensures !HasGlob(p, i, false)
    decreases |p| - i
  {
    if i < |p| && p[i] != '[' && !(p[i] == '\\' && i + 1 == |p|) {
      NotNested(p, if p[i] == '\\' then i + 2 else i + 1);
    }
  }

  lemma {:induction false} LiteralGlob(p: CStr, i: nat, s: CStr, j: nat)
    requires i <= |p| && j <= |s| && !HasGlob(p, i, false)
    ensures Glob(p, i, s, j, PLAIN) <==> s[j..] == Unescape(p, i)
    decreases |p| - i
  {
    if i < |p| {
      LiteralToken(p, i);
      var n := TokenAt(p, i, PLAIN).1;
      assert Plain(s, j, |s|, PLAIN);
      SingleStep(p, i, s, j, |s|, PLAIN);
      if j < |s| {
        assert s[j..] == [s[j]] + s[j + 1..];
        LiteralGlob(p, n, s, j + 1);
      }
    }
  }

  /** A pattern reported free of glob characters accepts exactly one string:
      the pattern with its backslashes removed. */
  lemma NoGlobAcceptsOneString(p: CStr, s: CStr)
    requires !HasGlob(p, 0, false)
    ensures Matches(p, s, PLAIN) <==> s == Unescape(p, 0)
  {
    LiteralGlob(p, 0, s, 0);
    GlobIsMatches(p, s, PLAIN);
    assert s[0..] == s;
  }

  // ------------------------------------------------------------- edge cases

  /** A literal that is neither a slash nor a period. */
  lemma LitStep(p: CStr, i: nat, s: CStr, j: nat, f: Flags, c: char)
    requires i < |p| && j <= |s| && TokenAt(p, i, f).0 == Lit(c) && c != '/' && c != '.'
    ensures Glob(p, i, s, j, f) <==> j < |s| && s[j] == c && Glob(p, TokenAt(p, i, f).1, s, j + 1, f)
  {
    if j < |s| && s[j] == c && Glob(p, TokenAt(p, i, f).1, s, j + 1, f) {
      assert Piece(Lit(c), s, j, j + 1, f);
    }
  }

  /** A bracket expression in which a leading ']' stands last is never closed. */
  lemma OpenBracket(p: CStr, f: Flags)
    requires p == "[]" || p == "[!]" || p == "[^]"
    ensures TokenAt(p, 0, f) == (Lit('['), 1)
    ensures TokenAt(p, 1, f) == (Lit(p[1]), 2)
    ensures |p| == 3 ==> TokenAt(p, 2, f) == (Lit(']'), 3)
  {
    var n := |p|;
    assert ScanItems(p, n, f, false) == Unclosed;
    assert ItemAt(p, n - 1, f) == OptItem.Some(One(']'), n);
    assert ScanItems(p, n - 1, f, true) == Unclosed;
    assert ScanBracket(p, 0, f) == Unclosed;
  }

  /** The header says that "[]" never matches and that "[!]" and "[^]" match without consuming a
      character.  Each of them matches exactly one string, itself, whatever the flags. */
  lemma EmptyClassIsLiteral(p: CStr, s: CStr, f: Flags)
    requires p == "[]" || p == "[!]" || p == "[^]"
    ensures Matches(p, s, f) <==> s == p
  {
    OpenBracket(p, f);
    LitStep(p, 0, s, 0, f, '[');
    if |s| > 0 {
      LitStep(p, 1, s, 1, f, p[1]);
    }
    if |p| == 3 && |s| > 1 {
      LitStep(p, 2, s, 2, f, ']');
    }
    GlobIsMatches(p, s, f);
  }

  /** The piece of a split that holds character q. */
  lemma {:induction false} PieceOf(toks: seq<Token>, s: CStr, cuts: seq<nat>, n: nat, q: nat, f: Flags) returns (t: nat)
    requires IsSplit(toks, s, cuts, 0, f) && n <= |toks| && q < cuts[n]
    ensures t < n && cuts[t] <= q < cuts[t + 1]
  {
    if q < cuts[n - 1] {
      t := PieceOf(toks, s, cuts, n - 1, q, f);
    } else {
      t := n - 1;
    }
  }

  /** With PERIOD, in every way to match a string, each leading period of the string or, with PATHNAME, of one
      of its segments is matched by a period that stands first in the pattern or in a segment of it. */
  lemma PeriodStandsFirst(p: CStr, s: CStr, f: Flags, cuts: seq<nat>, j: nat) returns (t: nat)
    requires IsSplit(Tokens(p, 0, f), s, cuts, 0, f) && j < |s| && LeadingPeriod(s, j, f)
    ensures t < |Tokens(p, 0, f)| && cuts[t] == j && Tokens(p, 0, f)[t] == Lit('.')
    ensures if j == 0 then t == 0 else t > 0 && Tokens(p, 0, f)[t - 1] == Slash && cuts[t - 1] == j - 1
  {
    var toks := Tokens(p, 0, f);
    if j == 0 {
      t := 0;
    } else {
      var u := PieceOf(toks, s, cuts, |toks|, j - 1, f);
      assert PieceAt(toks, s, cuts, u, f) && s[j - 1] == '/';
      t := u + 1;
    }
    assert PieceAt(toks, s, cuts, t, f);
  }

  /** What "*.c" matches: a final ".c", no slash with PATHNAME, and with PERIOD no leading
      period, so not ".c" itself. */
  lemma StarDotC(s: CStr, f: Flags)
    ensures Matches("*.c", s, f) <==> EndsInC(s, f)
  {
    GlobIsMatches("*.c", s, f);
    if Glob("*.c", 0, s, 0, f) {
      StarDotCOnly(s, f);
    }
    if EndsInC(s, f) {
      StarDotCAll(s, f);
    }
  }

  predicate EndsInC(s: CStr, f: Flags) {
    && |s| >= 2 && s[|s| - 2] == '.' && s[|s| - 1] == 'c'
    && (f.pathname ==> '/' !in s) && (f.period ==> s[0] != '.')
  }

  lemma StarDotCOnly(s: CStr, f: Flags)
    requires Glob("*.c", 0, s, 0, f)
    ensures EndsInC(s, f)
  {
    var p: CStr, n := "*.c", |s|;
    assert TokenAt(p, 0, f) == (Star, 1);
    var k: nat :| k <= n && Piece(Star, s, 0, k, f) && Glob(p, 1, s, k, f);
    DotC(s, k, f);
    assert f.pathname ==> forall q :: 0 <= q < n ==> s[q] != '/';
  }

  lemma StarDotCAll(s: CStr, f: Flags)
    requires EndsInC(s, f)
    ensures Glob("*.c", 0, s, 0, f)
  {
    var p: CStr, n := "*.c", |s|;
    assert TokenAt(p, 0, f) == (Star, 1);
    assert f.pathname ==> forall q :: 0 <= q < n ==> s[q] in s;
    DotC(s, n - 2, f);
    assert Piece(Star, s, 0, n - 2, f);
  }

  /** The tail ".c", where the period is not a leading one. */
  lemma DotC(s: CStr, k: nat, f: Flags)
    requires k <= |s|
    ensures Glob("*.c", 1, s, k, f) ==> k == |s| - 2 && s[k] == '.' && s[k + 1] == 'c'
    ensures k == |s| - 2 && s[k] == '.' && s[k + 1] == 'c' ==> Glob("*.c", 1, s, k, f)
  {
    var p: CStr := "*.c";
    assert TokenAt(p, 1, f) == (Lit('.'), 2) && TokenAt(p, 2, f) == (Lit('c'), 3);
    if k < |s| {
      LitStep(p, 2, s, k + 1, f, 'c');
      if k == |s| - 2 && s[k] == '.' && s[k + 1] == 'c' {
        assert Piece(Lit('.'), s, k, k + 1, f);
      }
    }
  }
}
