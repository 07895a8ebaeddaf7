/** What the matcher's pattern forms match, for all strings and flags: bracket expressions by the
    characters that are written in them, question marks, escapes, and stars around a slash. */
module FnmatchForms {
  import opened CStrings
  import opened Fnmatch
  import FnmatchTest

  // ------------------------------------------------------------------ brackets

  /** A member as it is written: the character lo, or the range from lo to hi. */
  datatype Member = Member(lo: char, hi: char, range: bool)

  /** A character that a bracket expression can hold without an escape, wherever it stands. */
  predicate Ordinary(c: char) {
    c != ']' && c != '\\' && c != '-' && c != '!' && c != '^' && c != '/'
  }

  function Quoted(c: char): seq<char> {
    if Ordinary(c) then [c] else ['\\', c]
  }

  function Written(ms: seq<Member>): seq<char> {
    if ms == [] then []
    else Quoted(ms[0].lo) + (if ms[0].range then ['-'] + Quoted(ms[0].hi) else []) + Written(ms[1..])
  }

  /** A character that can be written in a bracket expression under the flags. */
  predicate Writable(c: char, f: Flags) {
    c != '\0' && (Ordinary(c) || !f.noescape) && (f.pathname ==> c != '/')
  }

  predicate AllWritable(ms: seq<Member>, f: Flags) {
    forall k :: 0 <= k < |ms| ==> Writable(ms[k].lo, f) && (ms[k].range ==> Writable(ms[k].hi, f))
  }

  /** The character is one of those that the members name. */
  predicate Named(c: char, ms: seq<Member>) {
    exists k :: 0 <= k < |ms| && if ms[k].range then Ord(ms[k].lo) <= Ord(c) <= Ord(ms[k].hi) else c == ms[k].lo
  }

  /** A character that no bracket expression matches at the beginning of a string. */
  predicate Barred(c: char, f: Flags) {
    (f.pathname && c == '/') || (f.period && c == '.')
  }

  function ItemsOf(ms: seq<Member>): (r: seq<Item>)
    ensures |r| == |ms|
    ensures forall k :: 0 <= k < |ms| ==> r[k] == if ms[k].range then Span(ms[k].lo, ms[k].hi) else One(ms[k].lo)
  {
    seq(|ms|, k requires 0 <= k < |ms| => if ms[k].range then Span(ms[k].lo, ms[k].hi) else One(ms[k].lo))
  }

  /** From i on, p reads as the text t. */
  predicate ReadsAt(p: CStr, i: nat, t: seq<char>) {
    i + |t| <= |p| && p[i..i + |t|] == t
  }

  lemma ReadsParts(p: CStr, i: nat, a: seq<char>, b: seq<char>)
    requires ReadsAt(p, i, a + b)
    ensures ReadsAt(p, i, a) && ReadsAt(p, i + |a|, b)
  {
    assert p[i..i + |a|] == (a + b)[..|a|];
    assert p[i + |a|..i + |a| + |b|] == (a + b)[|a|..];
  }

  lemma ReadsChar(p: CStr, i: nat, t: seq<char>, k: nat)
    requires ReadsAt(p, i, t) && k < |t|
    ensures i + k < |p| && p[i + k] == t[k] && At(p, i + k) == t[k]
  {
    assert p[i..i + |t|][k] == p[i + k];
  }

  /** The member that is written first, without what follows it. */
  function First(m: Member): seq<char> {
    Quoted(m.lo) + if m.range then ['-'] + Quoted(m.hi) else []
  }

  /** What follows a member, the closing bracket at the latest, does not begin with '-'. */
  lemma Follow(ms: seq<Member>)
    ensures (Written(ms) + [']'])[0] != '-'
  {
  }

  /** Where the character itself stands, past its escape. */
  function Past(c: char): nat {
    if Ordinary(c) then 0 else 1
  }

  lemma {:induction false} ItemWritten(p: CStr, i: nat, m: Member, rest: seq<Member>, f: Flags)
    requires ReadsAt(p, i, First(m) + (Written(rest) + [']'])) && Writable(m.lo, f) && (m.range ==> Writable(m.hi, f))
    ensures i + |First(m)| < |p|
    ensures ItemAt(p, i + Past(m.lo), f) ==
            OptItem.Some(if m.range then Span(m.lo, m.hi) else One(m.lo), i + |First(m)|)
  {
    var tail := Written(rest) + [']'];
    var j := i + Past(m.lo);
    ReadsParts(p, i, First(m), tail);
    ReadsChar(p, i + |First(m)|, tail, 0);
    ReadsChar(p, i, First(m), Past(m.lo));
    assert p[j] == m.lo;
    Follow(rest);
    if m.range {
      ReadsChar(p, i, First(m), Past(m.lo) + 1);
      ReadsChar(p, i, First(m), Past(m.lo) + 2);
      ReadsChar(p, i, First(m), Past(m.lo) + 2 + Past(m.hi));
    }
  }

  /** A member stands at i and the next one, or the closing bracket, at next. */
  predicate MemberAt(p: CStr, i: nat, f: Flags, it: Item, next: nat) {
    && i < |p| && p[i] != ']'
    && var j := if !f.noescape && p[i] == '\\' then i + 1 else i;
       j < |p| && !(f.pathname && p[j] == '/') && ItemAt(p, j, f) == OptItem.Some(it, next)
  }

  /** The members stand at i one after the other, and then the closing bracket. */
  predicate MembersAt(p: CStr, i: nat, f: Flags, items: seq<Item>, ends: seq<nat>)
    decreases |items|
  {
    |items| == |ends| && i < |p| &&
    if items == [] then p[i] == ']'
    else MemberAt(p, i, f, items[0], ends[0]) && MembersAt(p, ends[0], f, items[1..], ends[1..])
  }

  function EndOf(i: nat, ends: seq<nat>): nat {
    if ends == [] then i else ends[|ends| - 1]
  }

  lemma {:induction false} ScanMembers(p: CStr, i: nat, f: Flags, items: seq<Item>, ends: seq<nat>)
    requires MembersAt(p, i, f, items, ends)
    ensures ScanItems(p, i, f, false) == Closed(EndOf(i, ends) + 1, items)
    decreases |items|
  {
    if items != [] {
      ScanMembers(p, ends[0], f, items[1..], ends[1..]);
      assert items == [items[0]] + items[1..];
    }
  }

  lemma {:induction false} MemberStart(p: CStr, i: nat, m: Member, f: Flags)
    requires ReadsAt(p, i, First(m)) && Writable(m.lo, f)
    ensures var j := i + Past(m.lo);
            && j < |p| && p[i] != ']' && p[j] == m.lo && !(f.pathname && p[j] == '/')
            && j == if !f.noescape && p[i] == '\\' then i + 1 else i
  {
    ReadsChar(p, i, First(m), 0);
    ReadsChar(p, i, First(m), Past(m.lo));
  }

  lemma {:induction false} MemberStands(p: CStr, i: nat, m: Member, rest: seq<Member>, f: Flags)
    requires ReadsAt(p, i, First(m) + (Written(rest) + [']'])) && Writable(m.lo, f) && (m.range ==> Writable(m.hi, f))
    ensures MemberAt(p, i, f, if m.range then Span(m.lo, m.hi) else One(m.lo), i + |First(m)|)
  {
    ReadsParts(p, i, First(m), Written(rest) + [']']);
    MemberStart(p, i, m, f);
    ItemWritten(p, i, m, rest, f);
  }

  lemma {:induction false} WrittenCons(ms: seq<Member>)
    requires ms != []
    ensures Written(ms) + [']'] == First(ms[0]) + (Written(ms[1..]) + [']'])
  {
  }

  /** Members that are written stand where they are written. */
  lemma {:induction false} WrittenStand(p: CStr, i: nat, ms: seq<Member>, f: Flags) returns (ends: seq<nat>)
    requires ReadsAt(p, i, Written(ms) + [']']) && AllWritable(ms, f)
    ensures MembersAt(p, i, f, ItemsOf(ms), ends) && EndOf(i, ends) + 1 == i + |Written(ms) + [']']|
    decreases |ms|
  {
    if ms == [] {
      ReadsChar(p, i, [']'], 0);
      return [];
    }
    var m, rest := ms[0], ms[1..];
    WrittenCons(ms);
    ReadsParts(p, i, First(m), Written(rest) + [']']);
    MemberStands(p, i, m, rest, f);
    var more := WrittenStand(p, i + |First(m)|, rest, f);
    ends := [i + |First(m)|] + more;
    MembersCons(p, i, f, if m.range then Span(m.lo, m.hi) else One(m.lo), i + |First(m)|, ItemsOf(rest), more);
    ItemsCons(ms);
  }

  lemma {:induction false} MembersCons(p: CStr, i: nat, f: Flags, it: Item, next: nat, items: seq<Item>, ends: seq<nat>)
    requires MemberAt(p, i, f, it, next) && MembersAt(p, next, f, items, ends)
    ensures MembersAt(p, i, f, [it] + items, [next] + ends) && EndOf(i, [next] + ends) == EndOf(next, ends)
  {
    assert ([it] + items)[1..] == items && ([next] + ends)[1..] == ends;
  }

  lemma ItemsCons(ms: seq<Member>)
    requires ms != []
    ensures ItemsOf(ms) == [if ms[0].range then Span(ms[0].lo, ms[0].hi) else One(ms[0].lo)] + ItemsOf(ms[1..])
  {
  }

  /** The bracket scan reads the members as they are written. */
  lemma ScanWritten(p: CStr, i: nat, ms: seq<Member>, f: Flags)
    requires ReadsAt(p, i, Written(ms) + [']']) && AllWritable(ms, f)
    ensures ScanItems(p, i, f, false) == Closed(i + |Written(ms) + [']']|, ItemsOf(ms))
  {
    var ends := WrittenStand(p, i, ms, f);
    ScanMembers(p, i, f, ItemsOf(ms), ends);
  }

  /** The marks of a bracket expression: none, or one of the two for negation. */
  predicate Mark(mark: string) {
    mark == "" || mark == "!" || mark == "^"
  }

  function Bracketed(mark: string, ms: seq<Member>): seq<char> {
    ['['] + mark + (Written(ms) + [']'])
  }

  lemma {:induction false} FirstWritten(ms: seq<Member>)
    requires ms != []
    ensures Written(ms) != [] && Written(ms)[0] == Quoted(ms[0].lo)[0]
  {
  }

  lemma ThirdPart(a: seq<char>, b: seq<char>, c: seq<char>)
    ensures (a + b + c)[|a| + |b|..|a| + |b| + |c|] == c && |a + b + c| == |a| + |b| + |c|
  {
  }

  /** Where the members begin, and with what. */
  lemma {:induction false} BracketStart(p: CStr, mark: string, ms: seq<Member>)
    requires Mark(mark) && ms != [] && p == Bracketed(mark, ms)
    ensures p[0] == '[' && |p| == 1 + |mark| + |Written(ms) + [']']| && (NegatedAt(p, 0) <==> mark != "")
    ensures ReadsAt(p, 1 + |mark|, Written(ms) + [']']) && At(p, 1 + |mark|) != ']'
  {
    var n, text := 1 + |mark|, Written(ms) + [']'];
    ThirdPart(['['], mark, text);
    assert mark != "" ==> p[1] == mark[0];
    ReadsChar(p, n, text, 0);
    FirstWritten(ms);
    assert text[0] == Written(ms)[0];
  }

  lemma {:induction false} TokenWritten(p: CStr, mark: string, ms: seq<Member>, f: Flags)
    requires Mark(mark) && ms != [] && AllWritable(ms, f) && p == Bracketed(mark, ms)
    ensures p != "" && TokenAt(p, 0, f) == (Class(mark != "", ItemsOf(ms)), |p|)
  {
    BracketStart(p, mark, ms);
    ScanWritten(p, 1 + |mark|, ms, f);
    TokenClosed(p, 1 + |mark|, ItemsOf(ms), f);
  }

  lemma TokenClosed(p: CStr, n: nat, items: seq<Item>, f: Flags)
    requires p != "" && p[0] == '[' && n == (if NegatedAt(p, 0) then 2 else 1) <= |p| && At(p, n) != ']'
    requires ScanItems(p, n, f, false) == Closed(|p|, items)
    ensures TokenAt(p, 0, f) == (Class(NegatedAt(p, 0), items), |p|)
  {
  }

  lemma NamedIsIn(c: char, ms: seq<Member>)
    ensures Named(c, ms) <==> InItems(c, ItemsOf(ms))
  {
    var items := ItemsOf(ms);
    forall k | 0 <= k < |ms|
      ensures InItem(c, items[k]) <==> if ms[k].range then Ord(ms[k].lo) <= Ord(c) <= Ord(ms[k].hi) else c == ms[k].lo
    {
    }
  }

  /** A pattern of one token that stands for one character. */
  lemma OneToken(p: CStr, t: Token, s: CStr, f: Flags)
    requires p != "" && TokenAt(p, 0, f) == (t, |p|) && Single(t)
    ensures Matches(p, s, f) <==>
            |s| == 1 && (LeadingPeriod(s, 0, f) ==> t == Lit('.')) && (f.pathname ==> s[0] != '/') && Accepts(t, s[0])
  {
    GlobIsMatches(p, s, f);
    if |s| == 1 && Piece(t, s, 0, 1, f) {
      assert Glob(p, |p|, s, 1, f);
    }
  }

  /** For every list of members: the bracket expression matches exactly the one-character strings whose
      character is named, and the negated one those whose character is not; neither matches a slash under
      PATHNAME or a leading period under PERIOD. */
  lemma BracketMatches(mark: string, ms: seq<Member>, p: CStr, s: CStr, f: Flags)
    requires Mark(mark) && ms != [] && AllWritable(ms, f) && p == Bracketed(mark, ms)
    ensures Matches(p, s, f) <==> |s| == 1 && Named(s[0], ms) == (mark == "") && !Barred(s[0], f)
  {
    TokenWritten(p, mark, ms, f);
    OneToken(p, Class(mark != "", ItemsOf(ms)), s, f);
    if |s| == 1 {
      NamedIsIn(s[0], ms);
    }
  }

  /** A plain character of the seven-bit set. */
  predicate Ascii(c: char) {
    0 < c as int < 128
  }

  /** For seven-bit bounds the order is that of the codes, whatever byte the string holds. */
  lemma SevenBitOrder(lo: char, hi: char, c: char)
    requires Ascii(lo) && Ascii(hi) && c as int < 256
    ensures Ord(lo) <= Ord(c) <= Ord(hi) <==> lo as int <= c as int <= hi as int
  {
  }

  /** The order of all bytes is that of a signed char: two's complement. */
  lemma ByteOrder(c: char)
    requires c as int < 256
    ensures Ord(c) == (c as int + 128) % 256 - 128
  {
  }

  /** "[lo-hi]" and its negations. */
  lemma RangeMatches(mark: string, lo: char, hi: char, p: CStr, s: CStr, f: Flags)
    requires Mark(mark) && Ordinary(lo) && Ordinary(hi) && Ascii(lo) && Ascii(hi)
    requires p == ['['] + mark + [lo, '-', hi, ']'] && (|s| == 1 ==> s[0] as int < 256)
    ensures Matches(p, s, f) <==>
            |s| == 1 && (lo as int <= s[0] as int <= hi as int) == (mark == "") && !Barred(s[0], f)
  {
    var ms := [Member(lo, hi, true)];
    assert Written(ms[1..]) == [];
    assert Written(ms) == [lo, '-', hi];
    assert p == Bracketed(mark, ms);
    BracketMatches(mark, ms, p, s, f);
    if |s| == 1 {
      SevenBitOrder(lo, hi, s[0]);
      assert Named(s[0], ms) <==> Ord(ms[0].lo) <= Ord(s[0]) <= Ord(ms[0].hi);
    }
  }

  /** The members that are these characters. */
  function Listed(cs: seq<char>): (ms: seq<Member>)
    ensures |ms| == |cs| && forall k :: 0 <= k < |cs| ==> ms[k] == Member(cs[k], cs[k], false)
  {
    seq(|cs|, k requires 0 <= k < |cs| => Member(cs[k], cs[k], false))
  }

  lemma {:induction false} ListedWritten(cs: seq<char>)
    requires forall k :: 0 <= k < |cs| ==> Ordinary(cs[k])
    ensures Written(Listed(cs)) == cs
    decreases |cs|
  {
    if cs != [] {
      assert Listed(cs)[1..] == Listed(cs[1..]);
      ListedWritten(cs[1..]);
      assert cs == [cs[0]] + cs[1..];
    }
  }

  /** A bracket expression that lists characters. */
  lemma SetMatches(mark: string, cs: CStr, p: CStr, s: CStr, f: Flags)
    requires Mark(mark) && cs != "" && (forall k :: 0 <= k < |cs| ==> Ordinary(cs[k])) && p == ['['] + mark + cs + [']']
    ensures Matches(p, s, f) <==> |s| == 1 && (s[0] in cs) == (mark == "") && !Barred(s[0], f)
  {
    var ms := Listed(cs);
    ListedWritten(cs);
    assert p == Bracketed(mark, ms);
    assert forall k :: 0 <= k < |cs| ==> cs[k] in cs;
    BracketMatches(mark, ms, p, s, f);
    if |s| == 1 {
      assert Named(s[0], ms) <==> s[0] in cs by {
        if s[0] in cs {
          var k :| 0 <= k < |cs| && cs[k] == s[0];
          assert ms[k].lo == s[0] && !ms[k].range;
        }
      }
    }
  }

  /** A closing bracket that stands first is a member: "[]c]" and its negations. */
  lemma LeadingCloseMatches(mark: string, c: char, p: CStr, s: CStr, f: Flags)
    requires Mark(mark) && Ordinary(c) && p == ['['] + mark + [']', c, ']']
    ensures Matches(p, s, f) <==> |s| == 1 && (s[0] == ']' || s[0] == c) == (mark == "") && !Barred(s[0], f)
  {
    var n, items := 1 + |mark|, [One(']'), One(c)];
    assert p[n] == ']' && p[n + 1] == c && p[n + 2] == ']' && |p| == n + 3;
    assert mark != "" ==> p[1] == mark[0];
    assert ItemAt(p, n + 1, f) == OptItem.Some(One(c), n + 2);
    assert MembersAt(p, n + 2, f, [], []) && MembersAt(p, n + 1, f, [One(c)], [n + 2]);
    ScanMembers(p, n + 1, f, [One(c)], [n + 2]);
    assert ItemAt(p, n, f) == OptItem.Some(One(']'), n + 1);
    assert ScanItems(p, n, f, true) == Closed(|p|, [One(']')] + [One(c)]);
    assert items == [One(']')] + [One(c)];
    OneToken(p, Class(mark != "", items), s, f);
    if |s| == 1 {
      assert InItems(s[0], items) <==> InItem(s[0], items[0]) || InItem(s[0], items[1]);
    }
  }

  // --------------------------------------------------------- the other forms

  /** "?" matches any one character but a slash under PATHNAME and a leading period under PERIOD. */
  lemma QuestionMatches(s: CStr, f: Flags)
    ensures Matches("?", s, f) <==> |s| == 1 && !Barred(s[0], f)
  {
    OneToken("?", AnyChar, s, f);
  }

  /** A backslash makes any character an ordinary one; under NOESCAPE it is an ordinary character itself. */
  lemma EscapeMatches(c: char, p: CStr, s: CStr, f: Flags)
    requires p == ['\\', c] && !f.noescape
    ensures Matches(p, s, f) <==> s == [c]
  {
    assert c in p;
    if f.pathname && c == '/' {
      GlobIsMatches(p, s, f);
      assert TokenAt(p, 0, f) == (Slash, 2);
      if s == [c] {
        assert Piece(Slash, s, 0, 1, f) && Glob(p, 2, s, 1, f);
      }
    } else {
      OneToken(p, Lit(c), s, f);
    }
  }

  lemma NoEscapeMatches(c: char, p: CStr, s: CStr, f: Flags)
    requires p == ['\\', c] && f.noescape && c != '/' && c != '.' && c != '*' && c != '?' && c != '['
    ensures Matches(p, s, f) <==> s == p
  {
    GlobIsMatches(p, s, f);
    FnmatchTest.LitStep(p, 0, s, 0, f, '\\');
    if |s| > 0 {
      FnmatchTest.LitStep(p, 1, s, 1, f, c);
    }
  }

  /** The slash at j parts the string as the pattern of two stars around a slash needs it. */
  predicate Parts(s: CStr, j: nat, f: Flags) {
    && j < |s| && s[j] == '/' && (f.pathname ==> forall q :: 0 <= q < |s| && s[q] == '/' ==> q == j)
    && (f.period ==> s[0] != '.') && (f.period && f.pathname && j + 1 < |s| ==> s[j + 1] != '.')
  }

  lemma SlashThenStar(s: CStr, k: nat, f: Flags)
    requires k <= |s|
    ensures Glob("*/*", 1, s, k, f) <==> k < |s| && s[k] == '/' && Piece(Star, s, k + 1, |s|, f)
  {
    var p: CStr := "*/*";
    var t := TokenAt(p, 1, f);
    assert t.1 == 2 && (t.0 == Slash || t.0 == Lit('/')) && TokenAt(p, 2, f) == (Star, 3);
    if k < |s| && s[k] == '/' && Piece(Star, s, k + 1, |s|, f) {
      assert Glob(p, 3, s, |s|, f);
      assert Glob(p, 2, s, k + 1, f);
      assert Piece(t.0, s, k, k + 1, f);
    }
  }

  /** Under PATHNAME two stars around a slash match exactly the strings with one slash, and otherwise those with
      at least one; under PERIOD no segment may begin with a period. */
  lemma StarSlashStar(s: CStr, f: Flags)
    ensures Matches("*/*", s, f) <==> exists j: nat :: Parts(s, j, f)
  {
    var p: CStr := "*/*";
    GlobIsMatches(p, s, f);
    assert TokenAt(p, 0, f) == (Star, 1);
    if Glob(p, 0, s, 0, f) {
      var k: nat :| k <= |s| && Piece(Star, s, 0, k, f) && Glob(p, 1, s, k, f);
      SlashThenStar(s, k, f);
      assert Parts(s, k, f);
    }
    if j: nat :| Parts(s, j, f) {
      SlashThenStar(s, j, f);
      assert Piece(Star, s, 0, j, f) && Glob(p, 1, s, j, f);
    }
  }
}
