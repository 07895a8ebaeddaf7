/** What ch_filepath_merge guarantees: the root is contained, and the result is what a
    stack of components gives. */
module FilepathProps {
  import opened Common
  import opened CStrings
  import opened Filepath

  // ------------------------------------------------- the walk, over a list of segments

  /** The segments of s between slashes, empty ones included, from index i on. */
  function Segments(s: CStr, i: nat): seq<CStr>
    requires i <= |s|
    decreases |s| - i
  {
    if i == |s| then []
    else
      var e := SegEnd(s, i);
      [s[i..e]] + Segments(s, if e < |s| then e + 1 else e)
  }

  predicate EndsInSlash(s: CStr) {
    s != "" && s[|s| - 1] == '/'
  }

  type Stepper = (CStr, nat, CStr, bool) -> Walked

  function StepOf(secure: bool): Stepper {
    (c: CStr, kept: nat, seg: CStr, more: bool) => Step(c, kept, seg, more, secure)
  }

  /** The steps over the segments; `slash` says that a slash follows the last one. */
  function Fold(step: Stepper, c: CStr, kept: nat, segs: seq<CStr>, slash: bool): Walked
    decreases |segs|
  {
    if segs == [] then Walked(c, kept)
    else
      match step(c, kept, segs[0], |segs| > 1 || slash)
      case Above => Above
      case Walked(c', kept') => Fold(step, c', kept', segs[1..], slash)
  }

  lemma {:induction false} FoldCons(step: Stepper, c: CStr, kept: nat, seg: CStr, rest: seq<CStr>, slash: bool)
    ensures Fold(step, c, kept, [seg] + rest, slash) ==
            match step(c, kept, seg, rest != [] || slash)
            case Above => Above
            case Walked(c', kept') => Fold(step, c', kept', rest, slash)
  {
    assert ([seg] + rest)[1..] == rest;
  }

  predicate NoSlashes(segs: seq<CStr>) {
    forall k :: 0 <= k < |segs| ==> '/' !in segs[k]
  }

  lemma {:induction false} SegmentsPlain(s: CStr, i: nat)
    requires i <= |s|
    ensures NoSlashes(Segments(s, i))
    ensures Segments(s, i) == [] <==> i == |s|
    decreases |s| - i
  {
    if i < |s| {
      var e := SegEnd(s, i);
      SegmentsPlain(s, if e < |s| then e + 1 else e);
      assert '/' !in s[i..e];
    }
  }

  /** A slash follows the segment at i if others follow, or the text ends in one. */
  lemma {:induction false} More(s: CStr, i: nat)
    requires i < |s|
    ensures var e := SegEnd(s, i);
            e < |s| <==> Segments(s, if e < |s| then e + 1 else e) != [] || EndsInSlash(s)
  {
    var e := SegEnd(s, i);
    SegmentsPlain(s, if e < |s| then e + 1 else e);
  }

  /** The loop over addpath is the steps over its segments. */
  lemma {:induction false} WalkIsFold(c: CStr, kept: nat, add: CStr, i: nat, secure: bool)
    requires i <= |add|
    ensures Walk(c, kept, add, i, secure) == Fold(StepOf(secure), c, kept, Segments(add, i), EndsInSlash(add))
    decreases |add| - i
  {
    if i < |add| {
      var e := SegEnd(add, i);
      var next := if e < |add| then e + 1 else e;
      More(add, i);
      FoldCons(StepOf(secure), c, kept, add[i..e], Segments(add, next), EndsInSlash(add));
      match Step(c, kept, add[i..e], e < |add|, secure)
      case Above =>
      case Walked(c', kept') => WalkIsFold(c', kept', add, next, secure);
    }
  }

  // -------------------------------------------------------- root containment

  /** The first `kept` characters are still those of base and end on a boundary of it. */
  predicate KeptOf(base: CStr, c: CStr, kept: nat) {
    && kept <= |c| && kept <= |base| && c[..kept] == base[..kept]
    && (kept == |base| || kept == 0 || base[kept - 1] == '/')
  }

  lemma StepKept(base: CStr, c: CStr, kept: nat, seg: CStr, more: bool, secure: bool)
    requires KeptOf(base, c, kept)
    ensures match Step(c, kept, seg, more, secure)
            case Above => true
            case Walked(c', kept') => KeptOf(base, c', kept') && (secure ==> kept' == kept)
  {
    if seg == ".." && c != "" {
      var d := Crop(c);
      if |d| < kept && d != "" {
        assert base[|d| - 1] == c[..kept][|d| - 1] == d[|d| - 1];
        assert c[..|d|] == c[..kept][..|d|];
      } else if |d| >= kept {
        assert d[..kept] == c[..kept];
      }
    }
  }

  lemma {:induction false} WalkKept(base: CStr, c: CStr, kept: nat, add: CStr, i: nat, secure: bool)
    requires i <= |add| && KeptOf(base, c, kept)
    ensures match Walk(c, kept, add, i, secure)
            case Above => true
            case Walked(c', kept') => KeptOf(base, c', kept') && (secure ==> kept' == kept)
    decreases |add| - i
  {
    if i < |add| {
      var e := SegEnd(add, i);
      var seg: CStr := add[i..e];
      StepKept(base, c, kept, seg, e < |add|, secure);
      WalkStep(c, kept, add, i, secure);
      var w := Step(c, kept, seg, e < |add|, secure);
      if w.Walked? {
        WalkKept(base, w.text, w.kept, add, if e < |add| then e + 1 else e, secure);
      }
    }
  }

  /** Enough of the root is kept for all of it to stand at the front, on a boundary. */
  lemma KeptRoot(root: CStr, t: CStr, kept: nat)
    requires KeptOf(RootSlash(root), t, kept) && |root| <= kept
    ensures root <= t && (root == "" || root[|root| - 1] == '/' || |t| == |root| || t[|root|] == '/')
  {
    var base := RootSlash(root);
    assert root == base[..|root|];
    assert base[..|root|] == base[..kept][..|root|] == t[..kept][..|root|] == t[..|root|];
    if root != "" && root[|root| - 1] != '/' {
      assert base[|root|] == '/';
      assert kept == |root| + 1;
      assert t[..kept][|root|] == base[..kept][|root|];
    }
  }

  /** NOTABOVEROOT: a successful merge stays under the given root, whatever the paths. */
  lemma UnderRoot(root: CStr, add: CStr, f: Flags)
    requires f.notAboveRoot && Merged(root, add, f).Ok?
    ensures var t := Merged(root, add, f).path;
            && root <= t
            && (root == "" || root[|root| - 1] == '/' || |t| == |root| || t[|root|] == '/')
  {
    var w := WalkFrom(root, add, f.secureRootTest);
    if root == "" {
      assert root <= w.text;
    } else if w.kept >= |root| {
      if At(add, 0) == '/' {
        WalkKept("", "/", 0, add, SkipSlashes(add, 0), f.secureRootTest);
      } else {
        var base := RootSlash(root);
        WalkKept(base, base, |base|, add, 0, f.secureRootTest);
        KeptRoot(root, w.text, w.kept);
      }
    }
  }

  /** What the buffer holds before each turn of the loop and after the last one. */
  function Texts(c: CStr, kept: nat, add: CStr, i: nat, secure: bool): (r: seq<CStr>)
    requires i <= |add|
    ensures r != [] && r[0] == c
    decreases |add| - i
  {
    if i == |add| then [c]
    else
      var e := SegEnd(add, i);
      match Step(c, kept, add[i..e], e < |add|, secure)
      case Above => [c]
      case Walked(c', kept') => [c] + Texts(c', kept', add, if e < |add| then e + 1 else e, secure)
  }

  lemma {:induction false} TextsKept(base: CStr, c: CStr, add: CStr, i: nat)
    requires i <= |add| && base <= c
    ensures forall k :: 0 <= k < |Texts(c, |base|, add, i, true)| ==> base <= Texts(c, |base|, add, i, true)[k]
    decreases |add| - i
  {
    if i < |add| {
      var e := SegEnd(add, i);
      var next := if e < |add| then e + 1 else e;
      StepKept(base, c, |base|, add[i..e], e < |add|, true);
      var w := Step(c, |base|, add[i..e], e < |add|, true);
      if w.Walked? {
        TextsKept(base, w.text, add, next);
      }
    }
  }

  /** The texts of a secure merge. */
  function SecureTexts(root: CStr, add: CStr): seq<CStr> {
    Texts(RootSlash(root), |RootSlash(root)|, add, 0, true)
  }

  /** SECUREROOTTEST: at no turn of the loop is the root with its slash cut, not even when the merge is
      refused later; and the last text is the result. */
  lemma SecureKeepsRoot(root: CStr, add: CStr, f: Flags)
    requires f.secureRootTest && At(add, 0) != '/'
    ensures forall k :: 0 <= k < |SecureTexts(root, add)| ==> RootSlash(root) <= SecureTexts(root, add)[k]
    ensures Merged(root, add, f).Ok? ==> Merged(root, add, f).path == SecureTexts(root, add)[|SecureTexts(root, add)| - 1]
  {
    var base := RootSlash(root);
    assert base[..|base|] == base;
    TextsKept(base, base, add, 0);
    LastText(base, |base|, add, 0, true);
  }

  lemma TextsStep(c: CStr, kept: nat, add: CStr, i: nat, secure: bool, c': CStr, kept': nat)
    requires i < |add|
    requires var e := SegEnd(add, i); Step(c, kept, add[i..e], e < |add|, secure) == Walked(c', kept')
    ensures var e := SegEnd(add, i);
            var next := if e < |add| then e + 1 else e;
            && Texts(c, kept, add, i, secure) == [c] + Texts(c', kept', add, next, secure)
            && Walk(c, kept, add, i, secure) == Walk(c', kept', add, next, secure)
  {
    WalkStep(c, kept, add, i, secure);
  }

  predicate EndsIn(ts: seq<CStr>, w: Walked) {
    ts != [] && (w.Walked? ==> w.text == ts[|ts| - 1])
  }

  lemma EndsLater(c: CStr, ts: seq<CStr>, w: Walked)
    requires EndsIn(ts, w)
    ensures EndsIn([c] + ts, w)
  {
  }

  lemma {:induction false} LastText(c: CStr, kept: nat, add: CStr, i: nat, secure: bool)
    requires i <= |add|
    ensures EndsIn(Texts(c, kept, add, i, secure), Walk(c, kept, add, i, secure))
    decreases |add| - i
  {
    if i < |add| {
      var e := SegEnd(add, i);
      var next := if e < |add| then e + 1 else e;
      match Step(c, kept, add[i..e], e < |add|, secure) {
        case Above => WalkStep(c, kept, add, i, secure);
        case Walked(c', kept') =>
          TextsStep(c, kept, add, i, secure, c', kept');
          LastText(c', kept', add, next, secure);
          EndsLater(c, Texts(c', kept', add, next, secure), Walk(c', kept', add, next, secure));
      }
    }
  }

  /** The segment that starts at i would take the text c out of its first n characters. */
  predicate Leaves(c: CStr, seg: CStr, n: nat) {
    seg == ".." && (c == "/" || Backpathed(c) || |Crop(c)| < n)
  }

  lemma LeavesFirst(c: CStr, kept: nat, seg: CStr, more: bool)
    ensures Step(c, kept, seg, more, true).Above? <==> Leaves(c, seg, kept)
    ensures !Leaves(c, seg, kept) ==> Step(c, kept, seg, more, true) == Step(c, kept, seg, more, false)
    ensures Step(c, kept, seg, more, false).Walked?
    ensures !Leaves(c, seg, kept) ==> Step(c, kept, seg, more, false).kept == kept
  {
  }

  /** Where SECUREROOTTEST does not refuse it changes nothing. */
  lemma {:induction false} SecureSame(c: CStr, n: nat, add: CStr, i: nat)
    requires i <= |add|
    ensures Walk(c, n, add, i, true).Walked? ==> Walk(c, n, add, i, true) == Walk(c, n, add, i, false)
    decreases |add| - i
  {
    if i < |add| {
      var e := SegEnd(add, i);
      var seg: CStr := add[i..e];
      LeavesFirst(c, n, seg, e < |add|);
      WalkStep(c, n, add, i, true);
      WalkStep(c, n, add, i, false);
      if !Leaves(c, seg, n) {
        SecureSame(Step(c, n, seg, e < |add|, false).text, n, add, if e < |add| then e + 1 else e);
      }
    }
  }

  /** How many directories the segments lead down, ".." counting as one up. */
  function Net(segs: seq<CStr>): int {
    if segs == [] then 0
    else (if segs[0] == "" || segs[0] == "." then 0 else if segs[0] == ".." then -1 else 1) + Net(segs[1..])
  }

  /** Some prefix of the segments has more ".." than names, by more than d. */
  ghost predicate Escapes(segs: seq<CStr>, d: nat) {
    exists k :: 0 <= k <= |segs| && d + Net(segs[..k]) < 0
  }

  /** The same, segment by segment. */
  predicate Sinks(segs: seq<CStr>, d: int) {
    d < 0 || (segs != [] && Sinks(segs[1..], d + Net(segs[..1])))
  }

  lemma {:induction false} NetCons(segs: seq<CStr>, k: nat)
    requires 1 <= k <= |segs|
    ensures Net(segs[..k]) == Net(segs[..1]) + Net(segs[1..][..k - 1])
  {
    assert segs[..k][1..] == segs[1..][..k - 1];
    assert segs[..1][1..] == [];
  }

  lemma {:induction false} SinksIffEscapes(segs: seq<CStr>, d: nat)
    ensures Sinks(segs, d) <==> Escapes(segs, d)
    decreases |segs|
  {
    if segs != [] {
      var rest, d' := segs[1..], d + Net(segs[..1]);
      if d' < 0 {
        assert d + Net(segs[..1]) < 0;
      } else {
        SinksIffEscapes(rest, d');
        if Escapes(segs, d) {
          var k :| 0 <= k <= |segs| && d + Net(segs[..k]) < 0;
          NetCons(segs, k);
          assert d' + Net(rest[..k - 1]) < 0;
        }
        if Escapes(rest, d') {
          var k :| 0 <= k <= |rest| && d' + Net(rest[..k]) < 0;
          NetCons(segs, k + 1);
          assert d + Net(segs[..k + 1]) < 0;
        }
      }
    }
  }

  lemma {:induction false} SinksCons(seg: CStr, rest: seq<CStr>, d: nat)
    ensures Sinks([seg] + rest, d) <==> Sinks(rest, d + Net([seg]))
  {
    var segs := [seg] + rest;
    assert segs[1..] == rest && segs[..1] == [seg];
  }

  predicate Names(st: seq<CStr>) {
    forall i :: 0 <= i < |st| ==> Name(st[i]) && st[i] != ".."
  }

  /** The components behind the text base, each with a slash. */
  function Onto(base: CStr, st: seq<CStr>): CStr {
    if st == [] then base else Onto(base, st[..|st| - 1]) + st[|st| - 1] + "/"
  }

  lemma {:induction false} OntoEnd(base: CStr, st: seq<CStr>)
    requires base == "" || base[|base| - 1] == '/'
    ensures var x := Onto(base, st); (x == "" || x[|x| - 1] == '/') && |x| >= |base|
    decreases |st|
  {
    if st != [] {
      OntoEnd(base, st[..|st| - 1]);
    }
  }

  /** Going back over a last component that is not "..". */
  lemma PopText(x: CStr, w: CStr)
    requires (x == "" || x[|x| - 1] == '/') && Name(w) && w != ".."
    ensures var c: CStr := x + w + "/"; c != "/" && !Backpathed(c) && Crop(c) == x
  {
    var c: CStr := x + w + "/";
    if Backpathed(c) {
      LastIsDots(x, w);
      assert false;
    }
    assert c[..|c| - 1] == x + w;
    BackOver(x, w);
  }

  lemma StepBack(c: CStr, x: CStr, w: CStr, kept: nat, more: bool)
    requires c == x + w + "/" && (x == "" || x[|x| - 1] == '/') && Name(w) && w != ".." && |x| >= kept
    ensures Step(c, kept, "..", more, true) == Walked(x, kept)
  {
    PopText(x, w);
  }

  /** Going back with names behind the root: the last one is dropped. */
  lemma {:induction false} SecurePop(base: CStr, st: seq<CStr>, more: bool)
    requires (base == "" || base[|base| - 1] == '/') && Names(st) && st != []
    ensures Step(Onto(base, st), |base|, "..", more, true) == Walked(Onto(base, st[..|st| - 1]), |base|)
  {
    var front, w := st[..|st| - 1], st[|st| - 1];
    var x: CStr := Onto(base, front);
    OntoEnd(base, front);
    StepBack(Onto(base, st), x, w, |base|, more);
  }

  /** Going back with nothing behind the root is refused. */
  lemma SecureStop(base: CStr, more: bool)
    ensures Step(Onto(base, []), |base|, "..", more, true) == Above
  {
    assert Onto(base, []) == base;
  }

  lemma {:induction false} SecureOther(base: CStr, st: seq<CStr>, seg: CStr, more: bool)
    requires Names(st) && seg != ".." && '/' !in seg
    ensures var w := Step(Onto(base, st), |base|, seg, more, true);
            w.Walked? && w.kept == |base| && (more ==> w.text == Onto(base, StackStep(true, st, seg)))
  {
    if seg != "" && seg != "." {
      assert (st + [seg])[..|st|] == st;
      assert Onto(base, st) + seg + "/" == Onto(base, st + [seg]);
    }
  }

  /** What a turn does to the names behind the root. */
  predicate Turned(base: CStr, st: seq<CStr>, seg: CStr, more: bool, w: Walked) {
    if seg == ".." && st == [] then w == Above
    else w.Walked? && w.kept == |base| && (more ==> w.text == Onto(base, StackStep(true, st, seg)))
  }

  lemma {:induction false} SecureTurn(base: CStr, st: seq<CStr>, seg: CStr, more: bool)
    requires (base == "" || base[|base| - 1] == '/') && Names(st) && '/' !in seg
    ensures Turned(base, st, seg, more, Step(Onto(base, st), |base|, seg, more, true))
  {
    if seg == ".." && st == [] {
      SecureStop(base, more);
    } else if seg == ".." {
      SecurePop(base, st, more);
    } else {
      SecureOther(base, st, seg, more);
    }
  }

  lemma StackNames(st: seq<CStr>, seg: CStr)
    requires Names(st) && '/' !in seg
    ensures seg == ".." && st == [] ==> |st| + Net([seg]) < 0
    ensures !(seg == ".." && st == []) ==>
              Names(StackStep(true, st, seg)) && |StackStep(true, st, seg)| == |st| + Net([seg])
  {
    assert [seg][1..] == [];
  }

  ghost predicate TurnsOn(step: Stepper, base: CStr) {
    forall st: seq<CStr>, seg: CStr, more: bool :: Names(st) && '/' !in seg ==>
      Turned(base, st, seg, more, step(Onto(base, st), |base|, seg, more))
  }

  lemma {:induction false} SecureFold(step: Stepper, base: CStr, st: seq<CStr>, segs: seq<CStr>, slash: bool)
    requires TurnsOn(step, base) && Names(st) && NoSlashes(segs)
    ensures Fold(step, Onto(base, st), |base|, segs, slash).Above? <==> Sinks(segs, |st|)
    decreases |segs|
  {
    if segs != [] {
      var seg, rest, more := segs[0], segs[1..], |segs| > 1 || slash;
      assert segs == [seg] + rest;
      assert Turned(base, st, seg, more, step(Onto(base, st), |base|, seg, more));
      StackNames(st, seg);
      SinksCons(seg, rest, |st|);
      if more && !(seg == ".." && st == []) {
        SecureFold(step, base, StackStep(true, st, seg), rest, slash);
      }
    }
  }

  lemma SecureWalk(base: CStr, add: CStr)
    requires base == "" || base[|base| - 1] == '/'
    ensures Walk(base, |base|, add, 0, true).Above? <==> Escapes(Segments(add, 0), 0)
  {
    forall st: seq<CStr>, seg: CStr, more: bool | Names(st) && '/' !in seg
      ensures Turned(base, st, seg, more, StepOf(true)(Onto(base, st), |base|, seg, more))
    {
      SecureTurn(base, st, seg, more);
    }
    SegmentsPlain(add, 0);
    SecureFold(StepOf(true), base, [], Segments(add, 0), EndsInSlash(add));
    WalkIsFold(base, |base|, add, 0, true);
    SinksIffEscapes(Segments(add, 0), 0);
  }

  /** With SECUREROOTTEST a merge fails exactly for its length, for two relative paths with NOTRELATIVE, or if
      some prefix of addpath's segments has more ".." than names, whatever the root; and where it does not
      fail the flag changes nothing. */
  lemma SecureRefusesExactly(root: CStr, add: CStr, f: Flags)
    requires f.secureRootTest && At(add, 0) != '/'
    ensures Merged(root, add, f).Err? <==>
      || |root| + |add| + 4 > PATH_MAX
      || (f.notRelative && At(root, 0) != '/')
      || Escapes(Segments(add, 0), 0)
    ensures Merged(root, add, f).Ok? ==> Merged(root, add, f) == Merged(root, add, f.(secureRootTest := false))
  {
    var base := RootSlash(root);
    SecureWalk(base, add);
    SecureSame(base, |base|, add, 0);
    WalkKept(base, base, |base|, add, 0, true);
  }

  lemma ReturnCrop()
    ensures Crop("/a/") == "/" && !Backpathed("/a/")
  {
    assert "/a/"[..2] == "/a" && "/a"[..1] == "/";
    assert BackToSlash("/a") == BackToSlash("/");
  }

  lemma Appends(c: CStr, seg: CStr, kept: nat, more: bool, secure: bool, t: CStr)
    requires seg != "" && seg != "." && seg != ".." && t == c + seg + (if more then "/" else "")
    ensures Step(c, kept, seg, more, secure) == Walked(t, kept)
  {
  }

  /** The turns of "../a/x" on "/a/". */
  lemma ReturnTurns(secure: bool)
    ensures Step("/a/", 3, "..", true, secure) == if secure then Above else Walked("/", 1)
    ensures Step("/", 1, "a", true, secure) == Walked("/a/", 1)
    ensures Step("/a/", 1, "x", false, secure) == Walked("/a/x", 1)
  {
    ReturnCrop();
    Appends("/", "a", 1, true, secure, "/a/");
    Appends("/a/", "x", 1, false, secure, "/a/x");
  }

  lemma ReturnSegments()
    ensures var add: CStr := "../a/x";
            && SegEnd(add, 0) == 2 && SegEnd(add, 3) == 4 && SegEnd(add, 5) == 6
            && add[0..2] == ".." && add[3..4] == "a" && add[5..6] == "x"
  {
    var add: CStr := "../a/x";
    SegEndAt(add, 0, 2);
    SegEndAt(add, 3, 4);
    SegEndAt(add, 5, 6);
  }

  lemma ReturnWalk()
    ensures Walk("/a/", 3, "../a/x", 0, true) == Above
    ensures Walk("/a/", 3, "../a/x", 0, false) == Walked("/a/x", 1)
  {
    var add: CStr := "../a/x";
    ReturnSegments();
    ReturnTurns(true);
    ReturnTurns(false);
    WalkStep("/a/", 3, add, 0, true);
    WalkStep("/a/", 3, add, 0, false);
    WalkStep("/", 1, add, 3, false);
    WalkStep("/a/", 1, add, 5, false);
  }

  /** A path that leaves the root and comes back: only the test at every turn refuses it. */
  lemma LeavesAndReturns()
    ensures Merged("/a", "../a/x", Flags(true, true, false, false)) == Err(EAboveRoot)
    ensures Merged("/a", "../a/x", Flags(true, false, false, false)) == Ok("/a/x")
  {
    assert RootSlash("/a") == "/a/";
    ReturnWalk();
    assert "/a" <= "/a/x";
  }

  // --------------------------------------------------------- stack semantics

  predicate Name(w: CStr) {
    w != "" && w != "." && '/' !in w
  }

  /** Component lists without anything to resolve: ".." only in front, and only in a relative path. */
  predicate Canon(abs: bool, st: seq<CStr>) {
    && (forall i :: 0 <= i < |st| ==> Name(st[i]))
    && (forall i, j :: 0 <= i < j < |st| && st[j] == ".." ==> st[i] == "..")
    && (abs ==> forall i :: 0 <= i < |st| ==> st[i] != "..")
  }

  /** Resolving one segment: "" and "." do nothing, ".." pops, anything else is pushed. */
  function StackStep(abs: bool, st: seq<CStr>, seg: CStr): seq<CStr> {
    if seg == "" || seg == "." then st
    else if seg == ".." && st == [] then if abs then [] else [".."]
    else if seg == ".." && st[|st| - 1] != ".." then st[..|st| - 1]
    else st + [seg]
  }

  function StackFold(abs: bool, st: seq<CStr>, segs: seq<CStr>): seq<CStr>
    decreases |segs|
  {
    if segs == [] then st else StackFold(abs, StackStep(abs, st, segs[0]), segs[1..])
  }

  /** The components of a path: its non-empty segments. */
  function Components(s: CStr, i: nat): seq<CStr>
    requires i <= |s|
    decreases |s| - i
  {
    if i == |s| then []
    else
      var e := SegEnd(s, i);
      (if e == i then [] else [s[i..e]]) + Components(s, if e < |s| then e + 1 else e)
  }

  function Join(st: seq<CStr>): CStr {
    if st == [] then "" else Join(st[..|st| - 1]) + st[|st| - 1] + "/"
  }

  function Full(abs: bool, st: seq<CStr>): CStr {
    (if abs then "/" else "") + Join(st)
  }

  /** The text t spells the path, with or without a slash after its last component. */
  predicate Spells(t: CStr, abs: bool, st: seq<CStr>) {
    t == Full(abs, st) || (st != [] && t + "/" == Full(abs, st))
  }

  lemma FullSnoc(abs: bool, st: seq<CStr>, w: CStr)
    ensures Full(abs, st + [w]) == Full(abs, st) + w + "/"
  {
    assert (st + [w])[..|st|] == st;
  }

  lemma {:induction false} FullEnd(abs: bool, st: seq<CStr>)
    ensures var c := Full(abs, st); c == "" || c[|c| - 1] == '/'
    ensures Full(abs, st) == "" ==> st == []
  {
  }

  lemma {:induction false} BackOver(x: CStr, w: CStr)
    requires (x == "" || x[|x| - 1] == '/') && '/' !in w
    ensures BackToSlash(x + w) == x
  {
    if w != "" {
      var v := w[..|w| - 1];
      assert (x + w)[..|x + w| - 1] == x + v;
      assert (x + w)[|x + w| - 1] == w[|w| - 1] && w[|w| - 1] in w;
      BackOver(x, v);
    } else {
      assert x + w == x;
    }
  }

  /** Going back over the last component of a spelled path. */
  lemma CropLast(abs: bool, st: seq<CStr>)
    requires st != [] && '/' !in st[|st| - 1]
    ensures Crop(Full(abs, st)) == Full(abs, st[..|st| - 1])
  {
    var front, w := st[..|st| - 1], st[|st| - 1];
    var x := Full(abs, front);
    FullSnoc(abs, front, w);
    assert front + [w] == st;
    assert (x + w + "/")[..|x + w|] == x + w;
    FullEnd(abs, front);
    BackOver(x, w);
  }

  /** The text tests for "nothing to go back over" are exact. */
  lemma BackpathedExact(abs: bool, st: seq<CStr>)
    requires Canon(abs, st)
    ensures Backpathed(Full(abs, st)) <==> !abs && (st == [] || st[|st| - 1] == "..")
    ensures Full(abs, st) == "/" <==> abs && st == []
  {
    if st != [] {
      var front, w := st[..|st| - 1], st[|st| - 1];
      var x := Full(abs, front);
      var c := Full(abs, st);
      FullSnoc(abs, front, w);
      assert front + [w] == st;
      FullEnd(abs, front);
      assert c == x + w + "/";
      if w == ".." && x != "" {
        assert c[|c| - 4..] == "/../";
      }
      if Backpathed(c) {
        LastIsDots(x, w);
      }
    }
  }

  lemma LastIsDots(x: CStr, w: CStr)
    requires (x == "" || x[|x| - 1] == '/') && '/' !in w && Backpathed(x + w + "/")
    ensures w == ".."
  {
    var c: CStr := x + w + "/";
    var n := |c|;
    assert forall q :: 0 <= q < |w| ==> c[|x| + q] == w[q] && w[q] in w;
    assert x != "" ==> c[|x| - 1] == '/';
    assert c != "../" ==> c[n - 4..] == "/../";
    assert n >= 3 && c[n - 3] == '.' && c[n - 2] == '.' && (n > 3 ==> c[n - 4] == '/');
    assert |w| < 3 by {
      assert forall p :: |x| <= p < |x| + |w| ==> c[p] == w[p - |x|] && c[p] != '/';
    }
    assert |w| == 2 && c[|x| + 0] == w[0] && c[|x| + 1] == w[1];
  }

  lemma StackStepCanon(abs: bool, st: seq<CStr>, seg: CStr)
    requires Canon(abs, st) && '/' !in seg
    ensures Canon(abs, StackStep(abs, st, seg))
  {
  }

  /** What the text has to be after a segment. */
  predicate Follows(w: Walked, abs: bool, st: seq<CStr>, more: bool) {
    w.Walked? && Spells(w.text, abs, st) && (more ==> w.text == Full(abs, st))
  }

  /** Nothing to go back over: the segment is kept. */
  lemma DotsKept(abs: bool, st: seq<CStr>, kept: nat, more: bool)
    requires Canon(abs, st) && Backpathed(Full(abs, st)) && Full(abs, st) != "/"
    ensures Follows(Step(Full(abs, st), kept, "..", more, false), abs, st + [".."], more)
  {
    var c := Full(abs, st);
    FullSnoc(abs, st, "..");
    assert c + "../" == c + ".." + "/";
  }

  /** The last component is dropped. */
  lemma DotsPop(abs: bool, st: seq<CStr>, kept: nat, more: bool)
    requires Canon(abs, st) && st != [] && !Backpathed(Full(abs, st)) && Full(abs, st) != "/"
    ensures Follows(Step(Full(abs, st), kept, "..", more, false), abs, st[..|st| - 1], more)
  {
    CropLast(abs, st);
  }

  lemma DotsFollow(abs: bool, st: seq<CStr>, kept: nat, more: bool)
    requires Canon(abs, st)
    ensures Follows(Step(Full(abs, st), kept, "..", more, false), abs, StackStep(abs, st, ".."), more)
  {
    BackpathedExact(abs, st);
    if Full(abs, st) == "/" {
      assert st == [];
    } else if Backpathed(Full(abs, st)) {
      DotsKept(abs, st, kept, more);
      assert StackStep(abs, st, "..") == st + [".."];
    } else {
      DotsPop(abs, st, kept, more);
    }
  }

  /** One segment: the text follows the stack. */
  lemma StepFollows(abs: bool, st: seq<CStr>, kept: nat, seg: CStr, more: bool)
    requires Canon(abs, st) && '/' !in seg
    ensures Follows(Step(Full(abs, st), kept, seg, more, false), abs, StackStep(abs, st, seg), more)
  {
    if seg == ".." {
      DotsFollow(abs, st, kept, more);
    } else if seg != "" && seg != "." {
      FullSnoc(abs, st, seg);
      assert StackStep(abs, st, seg) == st + [seg];
      assert Full(abs, st) + seg + "" == Full(abs, st) + seg;
    }
  }

  lemma {:induction false} WalkFollows(abs: bool, st: seq<CStr>, kept: nat, add: CStr, i: nat)
    requires i <= |add| && Canon(abs, st)
    ensures Canon(abs, StackFold(abs, st, Segments(add, i)))
    ensures var w := Walk(Full(abs, st), kept, add, i, false);
            w.Walked? && Spells(w.text, abs, StackFold(abs, st, Segments(add, i)))
    decreases |add| - i
  {
    if i < |add| {
      var e := SegEnd(add, i);
      var more := e < |add|;
      var seg: CStr := add[i..e];
      var next := if more then e + 1 else e;
      StepFollows(abs, st, kept, seg, more);
      StackStepCanon(abs, st, seg);
      WalkStep(Full(abs, st), kept, add, i, false);
      var w := Step(Full(abs, st), kept, seg, more, false);
      assert Segments(add, i)[1..] == Segments(add, next);
      if more {
        WalkFollows(abs, StackStep(abs, st, seg), w.kept, add, next);
      }
    }
  }

  // ------------------------------------------------- components of a spelled text

  lemma {:induction false} JoinConcat(a: seq<CStr>, b: seq<CStr>)
    ensures Join(a + b) == Join(a) + Join(b)
    decreases |b|
  {
    if b == [] {
      assert a + b == a;
    } else {
      var front := b[..|b| - 1];
      assert (a + b)[..|a + b| - 1] == a + front;
      JoinConcat(a, front);
    }
  }

  /** t from i on is post, each with a slash, but perhaps not the last. */
  predicate SpellsRest(t: CStr, i: nat, post: seq<CStr>)
    requires i <= |t|
    decreases |post|
  {
    if post == [] then i == |t|
    else
      var e := i + |post[0]|;
      && e <= |t| && t[i..e] == post[0]
      && if e < |t| then t[e] == '/' && SpellsRest(t, e + 1, post[1..]) else |post| == 1
  }

  lemma JoinCons(w: CStr, rest: seq<CStr>)
    ensures Join([w] + rest) == w + "/" + Join(rest)
  {
    JoinConcat([w], rest);
    assert [w][..0] == [];
    assert Join([w]) == "" + w + "/";
  }

  /** A text that is x, w, a slash and j, but perhaps without the final slash. */
  lemma Cut(t: CStr, x: CStr, w: CStr, j: CStr)
    requires t == x + w + "/" + j || t + "/" == x + w + "/" + j
    ensures var e := |x| + |w|;
            && e <= |t| && t[|x|..e] == w
            && (e < |t| ==> t[e] == '/')
            && (e == |t| ==> j == "")
            && (e < |t| && j == "" ==> e + 1 == |t|)
  {
    var all := x + w + "/" + j;
    var e := |x| + |w|;
    assert all[|x|..e] == w && all[e] == '/';
    assert t == all[..|t|];
    assert t[|x|..e] == all[|x|..e];
  }

  lemma {:induction false} JoinSplit(x: CStr, post: seq<CStr>)
    requires post != []
    ensures x + Join(post) == x + post[0] + "/" + Join(post[1..])
    ensures Join(post[1..]) == "" ==> |post| == 1
  {
    assert post == [post[0]] + post[1..];
    JoinCons(post[0], post[1..]);
    FullEnd(false, post[1..]);
    assert Full(false, post[1..]) == Join(post[1..]);
  }

  lemma {:induction false} CutFirst(t: CStr, x: CStr, post: seq<CStr>)
    requires post != [] && (t == x + Join(post) || t + "/" == x + Join(post))
    ensures var w, rest, e := post[0], post[1..], |x| + |post[0]|;
            var y: CStr := x + w + "/";
            && e <= |t| && t[|x|..e] == w
            && (e < |t| ==> t[e] == '/' && (t == y + Join(rest) || (rest != [] && t + "/" == y + Join(rest))))
            && (e == |t| ==> |post| == 1)
  {
    JoinSplit(x, post);
    Cut(t, x, post[0], Join(post[1..]));
  }

  /** A text built by joining is read back component by component. */
  lemma {:induction false} JoinedRest(t: CStr, x: CStr, post: seq<CStr>)
    requires t == x + Join(post) || (post != [] && t + "/" == x + Join(post))
    ensures |x| <= |t| && SpellsRest(t, |x|, post)
    decreases |post|
  {
    if post != [] {
      CutFirst(t, x, post);
      if |x| + |post[0]| < |t| {
        JoinedRest(t, x + post[0] + "/", post[1..]);
      }
    }
  }

  lemma SegEndWord(t: CStr, i: nat, w: CStr)
    requires i + |w| <= |t| && t[i..i + |w|] == w && '/' !in w && (i + |w| < |t| ==> t[i + |w|] == '/')
    ensures SegEnd(t, i) == i + |w|
  {
    forall q | i <= q < i + |w|
      ensures t[q] != '/'
    {
      assert t[i..i + |w|][q - i] == t[q];
      assert w[q - i] in w;
    }
    SegEndAt(t, i, i + |w|);
  }

  lemma {:induction false} SegEndAt(t: CStr, i: nat, e: nat)
    requires i <= e <= |t| && (forall q :: i <= q < e ==> t[q] != '/') && (e < |t| ==> t[e] == '/')
    ensures SegEnd(t, i) == e
    decreases e - i
  {
    if i < e {
      SegEndAt(t, i + 1, e);
    }
  }

  lemma {:induction false} ComponentsOfRest(t: CStr, i: nat, post: seq<CStr>)
    requires i <= |t| && SpellsRest(t, i, post) && forall k :: 0 <= k < |post| ==> Name(post[k])
    ensures Components(t, i) == post
    decreases |post|
  {
    if post != [] {
      var e := i + |post[0]|;
      SegEndWord(t, i, post[0]);
      assert post == [post[0]] + post[1..];
      if e < |t| {
        ComponentsOfRest(t, e + 1, post[1..]);
      }
    }
  }

  lemma SpelledRest(t: CStr, abs: bool, st: seq<CStr>)
    requires Spells(t, abs, st)
    ensures |Full(abs, [])| <= |t| && t[..|Full(abs, [])|] == Full(abs, [])
    ensures SpellsRest(t, |Full(abs, [])|, st)
  {
    var x := Full(abs, []);
    assert Full(abs, st) == x + Join(st);
    JoinedRest(t, x, st);
    if abs {
      assert t[0] == Full(abs, st)[0];
    }
  }

  /** A spelled text has just the components of the stack, and starts with a slash iff it is absolute. */
  lemma SpelledComponents(t: CStr, abs: bool, st: seq<CStr>)
    requires Canon(abs, st) && Spells(t, abs, st)
    ensures Components(t, 0) == st && (At(t, 0) == '/' <==> abs)
  {
    SpelledRest(t, abs, st);
    if abs {
      ComponentsOfRest(t, 1, st);
      assert SegEnd(t, 0) == 0;
    } else {
      ComponentsOfRest(t, 0, st);
      FirstChar(t, 0, st);
    }
  }

  lemma FirstChar(t: CStr, i: nat, st: seq<CStr>)
    requires i <= |t| && SpellsRest(t, i, st) && (st != [] ==> Name(st[0]))
    ensures At(t, i) != '/'
  {
    if st != [] {
      assert t[i] == t[i..i + |st[0]|][0] == st[0][0];
      assert st[0][0] in st[0];
    }
  }

  /** The root is absolute or relative with nothing to resolve in it. */
  predicate CanonicalRoot(root: CStr, abs: bool) {
    Canon(abs, Components(root, 0)) && RootSlash(root) == Full(abs, Components(root, 0))
  }

  /** Merging is resolving the segments of addpath on the stack of the root's components: for
      every merge without SECUREROOTTEST that succeeds. */
  lemma MergeIsStack(root: CStr, add: CStr, abs: bool, f: Flags)
    requires CanonicalRoot(root, abs) && At(add, 0) != '/' && !f.secureRootTest && Merged(root, add, f).Ok?
    ensures var t, st := Merged(root, add, f).path, StackFold(abs, Components(root, 0), Segments(add, 0));
            Components(t, 0) == st && (At(t, 0) == '/' <==> abs) && Canon(abs, st) && Spells(t, abs, st)
  {
    var st := Components(root, 0);
    WalkFollows(abs, st, |RootSlash(root)|, add, 0);
    SpelledComponents(WalkFrom(root, add, false).text, abs, StackFold(abs, st, Segments(add, 0)));
  }

  lemma RootedSpelled(root: CStr, add: CStr)
    requires At(add, 0) == '/'
    ensures var w, st := WalkFrom(root, add, false), StackFold(true, [], Segments(add, 0));
            w.Walked? && Canon(true, st) && Spells(w.text, true, st)
  {
    assert Full(true, []) == "/";
    WalkFollows(true, [], 0, add, SkipSlashes(add, 0));
    LeadingSlashes(true, [], add, 0);
  }

  /** A rooted addpath replaces the root altogether. */
  lemma MergeRooted(root: CStr, add: CStr, f: Flags)
    requires At(add, 0) == '/' && !f.secureRootTest && Merged(root, add, f).Ok?
    ensures var t, st := Merged(root, add, f).path, StackFold(true, [], Segments(add, 0));
            Components(t, 0) == st && At(t, 0) == '/' && Canon(true, st) && Spells(t, true, st)
  {
    RootedSpelled(root, add);
    SpelledComponents(WalkFrom(root, add, false).text, true, StackFold(true, [], Segments(add, 0)));
  }

  /** Without SECUREROOTTEST a merge fails only for its length, for two relative paths with
      NOTRELATIVE, or with NOTABOVEROOT for a result that is not under the root. */
  lemma SucceedsExactly(root: CStr, add: CStr, f: Flags)
    requires !f.secureRootTest
    ensures WalkFrom(root, add, false).Walked?
    ensures Merged(root, add, f).Ok? <==>
      && |root| + |add| + 4 <= PATH_MAX
      && (f.notRelative ==> At(add, 0) == '/' || At(root, 0) == '/')
      && (f.notAboveRoot ==> Under(root, WalkFrom(root, add, false).text))
  {
    NeverAbove("/", 0, add, SkipSlashes(add, 0));
    NeverAbove(RootSlash(root), |RootSlash(root)|, add, 0);
    if f.notAboveRoot && Merged(root, add, f).Ok? {
      UnderRoot(root, add, f);
    }
  }

  /** The root stands at the front of t, on a component boundary. */
  predicate Under(root: CStr, t: CStr) {
    root <= t && (root == "" || root[|root| - 1] == '/' || |t| == |root| || t[|root|] == '/')
  }

  lemma {:induction false} NeverAbove(c: CStr, kept: nat, add: CStr, i: nat)
    requires i <= |add|
    ensures Walk(c, kept, add, i, false).Walked?
    decreases |add| - i
  {
    if i < |add| {
      var e := SegEnd(add, i);
      WalkStep(c, kept, add, i, false);
      LeavesFirst(c, kept, add[i..e], e < |add|);
      var w := Step(c, kept, add[i..e], e < |add|, false);
      NeverAbove(w.text, w.kept, add, if e < |add| then e + 1 else e);
    }
  }

  lemma {:induction false} LeadingSlashes(abs: bool, st: seq<CStr>, add: CStr, i: nat)
    requires i <= |add|
    ensures StackFold(abs, st, Segments(add, i)) == StackFold(abs, st, Segments(add, SkipSlashes(add, i)))
    decreases |add| - i
  {
    if i < |add| && add[i] == '/' {
      assert SegEnd(add, i) == i;
      assert Segments(add, i)[1..] == Segments(add, i + 1);
      LeadingSlashes(abs, st, add, i + 1);
    }
  }

  // ------------------------------------------------------------- idempotence

  /** One canonical component is appended to the text as it is. */
  lemma ReplayStep(abs: bool, pre: seq<CStr>, w: CStr, kept: nat, more: bool)
    requires Canon(abs, pre + [w])
    ensures Step(Full(abs, pre), kept, w, more, false)
         == Walked(Full(abs, pre) + w + (if more then "/" else ""), kept)
  {
    var all := pre + [w];
    assert all[|pre|] == w;
    if w == ".." {
      assert Canon(abs, pre) by {
        assert forall k :: 0 <= k < |pre| ==> pre[k] == all[k];
      }
      assert forall k :: 0 <= k < |pre| ==> all[k] == "..";
      assert pre != [] ==> pre[|pre| - 1] == all[|pre| - 1];
      BackpathedExact(abs, pre);
      var c := Full(abs, pre);
      assert c + "../" == c + ".." + "/" && c + ".." == c + ".." + "";
    }
  }

  /** Each component of post, in turn, is appended as it stands to the path before it. */
  ghost predicate Appended(step: Stepper, abs: bool, pre: seq<CStr>, post: seq<CStr>)
    decreases |post|
  {
    post == [] ||
    ( && '/' !in post[0]
      && (forall kept: nat, more: bool :: step(Full(abs, pre), kept, post[0], more)
                            == Walked(Full(abs, pre) + post[0] + (if more then "/" else ""), kept))
      && Appended(step, abs, pre + [post[0]], post[1..]))
  }

  lemma {:induction false} CanonAppended(abs: bool, pre: seq<CStr>, post: seq<CStr>)
    requires Canon(abs, pre + post)
    ensures Appended(StepOf(false), abs, pre, post)
    decreases |post|
  {
    if post != [] {
      CanonFront(abs, pre, post);
      forall kept: nat, more: bool
        ensures StepOf(false)(Full(abs, pre), kept, post[0], more)
             == Walked(Full(abs, pre) + post[0] + (if more then "/" else ""), kept)
      {
        ReplayStep(abs, pre, post[0], kept, more);
      }
      assert pre + [post[0]] + post[1..] == pre + post;
      CanonAppended(abs, pre + [post[0]], post[1..]);
    }
  }

  /** The text of a path, with or without a slash after its last component. */
  function TextOf(abs: bool, st: seq<CStr>, slash: bool): CStr {
    if slash || st == [] then Full(abs, st) else Full(abs, st[..|st| - 1]) + st[|st| - 1]
  }

  lemma {:induction false} Replay(step: Stepper, abs: bool, pre: seq<CStr>, post: seq<CStr>, kept: nat, slash: bool)
    requires Appended(step, abs, pre, post) && post != []
    ensures Fold(step, Full(abs, pre), kept, post, slash) == Walked(TextOf(abs, pre + post, slash), kept)
    decreases |post|
  {
    var w, rest := post[0], post[1..];
    assert post == [w] + rest;
    FoldCons(step, Full(abs, pre), kept, w, rest, slash);
    FullSnoc(abs, pre, w);
    if rest != [] {
      Replay(step, abs, pre + [w], rest, kept, slash);
      assert pre + [w] + rest == pre + post;
    } else {
      assert (pre + [w])[..|pre|] == pre && pre + post == pre + [w];
      assert Full(abs, pre) + w + "" == Full(abs, pre) + w;
    }
  }

  lemma SameCut(a: CStr, b: CStr)
    requires a + "/" == b + "/"
    ensures a == b
  {
    assert a == (a + "/")[..|a|] && b == (b + "/")[..|b|];
  }

  /** A spelled text is that of its stack, with a slash at the end if it has one. */
  lemma SpelledText(t: CStr, abs: bool, st: seq<CStr>)
    requires Canon(abs, st) && Spells(t, abs, st) && st != []
    ensures t == TextOf(abs, st, EndsInSlash(t))
  {
    var x, w := Full(abs, st[..|st| - 1]), st[|st| - 1];
    FullSnoc(abs, st[..|st| - 1], w);
    assert st[..|st| - 1] + [w] == st && Name(w);
    assert Full(abs, st) == x + w + "/";
    if t != Full(abs, st) {
      SameCut(t, x + w);
      assert t[|t| - 1] == w[|w| - 1] && w[|w| - 1] in w;
    }
  }

  lemma {:induction false} SegmentsOfRest(t: CStr, i: nat, post: seq<CStr>)
    requires i <= |t| && SpellsRest(t, i, post) && forall k :: 0 <= k < |post| ==> Name(post[k])
    ensures Segments(t, i) == post
    decreases |post|
  {
    if post != [] {
      var e := i + |post[0]|;
      SegEndWord(t, i, post[0]);
      assert post == [post[0]] + post[1..];
      if e < |t| {
        SegmentsOfRest(t, e + 1, post[1..]);
      }
    }
  }

  lemma CanonFront(abs: bool, pre: seq<CStr>, post: seq<CStr>)
    requires post != [] && Canon(abs, pre + post)
    ensures Canon(abs, pre + [post[0]]) && Name(post[0])
  {
    var a, b := pre + post, pre + [post[0]];
    assert forall k :: 0 <= k < |b| ==> b[k] == a[k];
    assert b[|pre|] == post[0];
  }

  lemma {:induction false} SpelledFold(t: CStr, abs: bool, st: seq<CStr>)
    requires Canon(abs, st) && Spells(t, abs, st)
    ensures Fold(StepOf(false), Full(abs, []), 0, st, EndsInSlash(t)) == Walked(t, 0)
  {
    if st == [] {
      assert t == Full(abs, []);
    } else {
      assert [] + st == st;
      CanonAppended(abs, [], st);
      Replay(StepOf(false), abs, [], st, 0, EndsInSlash(t));
      SpelledText(t, abs, st);
    }
  }

  lemma {:induction false} SpelledWalk(t: CStr, abs: bool, st: seq<CStr>)
    requires Canon(abs, st) && Spells(t, abs, st)
    ensures var x := Full(abs, []);
            |x| <= |t| && t[..|x|] == x && Walk(x, 0, t, |x|, false) == Walked(t, 0) && At(t, |x|) != '/'
  {
    var n := |Full(abs, [])|;
    SpelledRest(t, abs, st);
    FirstChar(t, n, st);
    SegmentsOfRest(t, n, st);
    WalkIsFold(Full(abs, []), 0, t, n, false);
    SpelledFold(t, abs, st);
  }

  /** A canonical path comes back unchanged: an absolute one whatever the root. */
  lemma SpelledUnchanged(root: CStr, t: CStr, abs: bool, st: seq<CStr>)
    requires Canon(abs, st) && Spells(t, abs, st) && (abs || root == "")
    ensures WalkFrom(root, t, false) == Walked(t, 0)
  {
    SpelledWalk(t, abs, st);
    assert Full(true, []) == "/" && Full(false, []) == "";
    if abs {
      assert t[0] == t[..1][0];
      assert SkipSlashes(t, 1) == 1;
    }
  }
}
