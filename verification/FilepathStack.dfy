/** ch_filepath_merge for every root, canonical or not: the segments of the result are those of a
    stack of the root's segments as they are written, and a path that is fed back comes back
    unchanged exactly if there is nothing to resolve in it. */
module FilepathStack {
  import opened CStrings
  import opened Filepath
  import opened FilepathProps

  // ------------------------------------------------------ the stack of written segments

  /** The root's segments stand as they are written, empty ones and "." included.  A ".." takes the last one
      away whatever it is, but the lone slash stays, and where nothing or a ".." stands last it is pushed. */
  function RawStep(st: seq<CStr>, seg: CStr): seq<CStr> {
    if seg == "" || seg == "." then st
    else if seg != ".." then st + [seg]
    else if st == [""] then st
    else if st == [] || st[|st| - 1] == ".." then st + [seg]
    else st[..|st| - 1]
  }

  function RawFold(st: seq<CStr>, segs: seq<CStr>): seq<CStr>
    decreases |segs|
  {
    if segs == [] then st else RawFold(RawStep(st, segs[0]), segs[1..])
  }

  /** The text has these segments; bare: with no slash after the last one. */
  predicate RawSpells(t: CStr, st: seq<CStr>, bare: bool) {
    if bare then st != [] && st[|st| - 1] != "" && t + "/" == Join(st) else t == Join(st)
  }

  /** The segment is put on the stack. */
  predicate Pushes(st: seq<CStr>, seg: CStr) {
    |RawStep(st, seg)| > |st|
  }

  /** The last segment is put on the stack and no slash follows it. */
  predicate Bare(st: seq<CStr>, segs: seq<CStr>, slash: bool)
    decreases |segs|
  {
    segs != [] &&
    if |segs| == 1 then !slash && Pushes(st, segs[0]) else Bare(RawStep(st, segs[0]), segs[1..], slash)
  }

  predicate RawTurned(st: seq<CStr>, seg: CStr, more: bool, w: Walked) {
    w.Walked? && RawSpells(w.text, RawStep(st, seg), !more && Pushes(st, seg))
  }

  lemma {:induction false} JoinPush(st: seq<CStr>, w: CStr)
    ensures Join(st + [w]) == Join(st) + w + "/"
  {
    assert (st + [w])[..|st|] == st;
  }

  lemma {:induction false} JoinLast(st: seq<CStr>)
    requires st != []
    ensures Join(st) == Join(st[..|st| - 1]) + st[|st| - 1] + "/"
  {
  }

  lemma {:induction false} JoinEnds(st: seq<CStr>)
    ensures Join(st) == "" <==> st == []
    ensures st != [] ==> Join(st)[|Join(st)| - 1] == '/'
  {
  }

  lemma {:induction false} PushTurn(st: seq<CStr>, kept: nat, seg: CStr, more: bool)
    requires seg != "" && seg != "." && seg != ".." && '/' !in seg
    ensures RawTurned(st, seg, more, Step(Join(st), kept, seg, more, false))
  {
    JoinPush(st, seg);
    assert Join(st) + seg + "" == Join(st) + seg;
  }

  /** Is there nothing to go back over?  The tests on the text say what stands last. */
  lemma {:induction false} RawBackpathed(st: seq<CStr>)
    requires NoSlashes(st)
    ensures Join(st) == "/" <==> st == [""]
    ensures Backpathed(Join(st)) <==> st == [] || st[|st| - 1] == ".."
  {
    if st != [] {
      var front, w := st[..|st| - 1], st[|st| - 1];
      var x := Join(front);
      JoinLast(st);
      JoinEnds(front);
      if w == ".." && x != "" {
        var c := Join(st);
        assert c[|c| - 4..] == "/../";
      }
      if Backpathed(Join(st)) {
        LastIsDots(x, w);
      }
    }
  }

  lemma {:induction false} RawCrop(st: seq<CStr>)
    requires NoSlashes(st) && st != []
    ensures Join(st) != "" && Crop(Join(st)) == Join(st[..|st| - 1])
  {
    var x, w := Join(st[..|st| - 1]), st[|st| - 1];
    JoinLast(st);
    JoinEnds(st[..|st| - 1]);
    assert (x + w + "/")[..|x + w|] == x + w;
    BackOver(x, w);
  }

  /** What the code does for "..", told by its tests. */
  lemma DotsStep(c: CStr, kept: nat, more: bool)
    ensures var w := Step(c, kept, "..", more, false);
            && w.Walked?
            && (c == "/" ==> w.text == c)
            && (Backpathed(c) && c != "/" ==> w.text == c + if more then "../" else "..")
            && (c != "/" && !Backpathed(c) ==> w.text == Crop(c))
  {
  }

  lemma {:induction false} DotsTurn(st: seq<CStr>, kept: nat, more: bool)
    requires NoSlashes(st)
    ensures RawTurned(st, "..", more, Step(Join(st), kept, "..", more, false))
  {
    RawBackpathed(st);
    DotsStep(Join(st), kept, more);
    if st == [] || st[|st| - 1] == ".." {
      JoinPush(st, "..");
      assert Join(st) + "../" == Join(st) + ".." + "/";
    } else if st != [""] {
      RawCrop(st);
    }
  }

  lemma {:induction false} RawTurn(st: seq<CStr>, kept: nat, seg: CStr, more: bool)
    requires NoSlashes(st) && '/' !in seg
    ensures RawTurned(st, seg, more, Step(Join(st), kept, seg, more, false))
  {
    if seg == ".." {
      DotsTurn(st, kept, more);
    } else if seg != "" && seg != "." {
      PushTurn(st, kept, seg, more);
    }
  }

  lemma RawStepPlain(st: seq<CStr>, seg: CStr)
    requires NoSlashes(st) && '/' !in seg
    ensures NoSlashes(RawStep(st, seg))
  {
  }

  ghost predicate RawTurns(step: Stepper) {
    forall st: seq<CStr>, kept: nat, seg: CStr, more: bool :: NoSlashes(st) && '/' !in seg ==>
      RawTurned(st, seg, more, step(Join(st), kept, seg, more))
  }

  lemma {:induction false} RawFollows(step: Stepper, st: seq<CStr>, kept: nat, segs: seq<CStr>, slash: bool)
    requires RawTurns(step) && NoSlashes(st) && NoSlashes(segs)
    ensures NoSlashes(RawFold(st, segs))
    ensures var w := Fold(step, Join(st), kept, segs, slash);
            w.Walked? && RawSpells(w.text, RawFold(st, segs), Bare(st, segs, slash))
    decreases |segs|
  {
    if segs != [] {
      var seg, rest, more := segs[0], segs[1..], |segs| > 1 || slash;
      assert segs == [seg] + rest;
      FoldCons(step, Join(st), kept, seg, rest, slash);
      var w := step(Join(st), kept, seg, more);
      assert RawTurned(st, seg, more, w);
      RawStepPlain(st, seg);
      if more {
        RawFollows(step, RawStep(st, seg), w.kept, rest, slash);
      }
    }
  }

  // ----------------------------------------------------------- texts and segments

  /** The segments of a text, joined again, are the text with a slash at its end. */
  lemma {:induction false} JoinSegments(s: CStr, i: nat)
    requires i <= |s|
    ensures Join(Segments(s, i)) == s[i..] + if i < |s| && !EndsInSlash(s) then "/" else ""
    decreases |s| - i
  {
    if i < |s| {
      var e := SegEnd(s, i);
      var next := if e < |s| then e + 1 else e;
      JoinCons(s[i..e], Segments(s, next));
      JoinSegments(s, next);
      TextCons(s, i, e, if next < |s| && !EndsInSlash(s) then "/" else "");
    } else {
      assert s[i..] + "" == "";
    }
  }

  lemma TextCons(s: CStr, i: nat, e: nat, u: CStr)
    requires i <= e <= |s|
    ensures e < |s| && s[e] == '/' ==> s[i..e] + "/" + (s[e + 1..] + u) == s[i..] + u
    ensures e == |s| ==> s[i..e] + "/" + (s[e..] + "") == s[i..] + "/"
  {
    if e < |s| && s[e] == '/' {
      assert s[i..] == s[i..e] + "/" + s[e + 1..];
    }
  }

  lemma RootJoined(root: CStr)
    ensures RootSlash(root) == Join(Segments(root, 0)) && NoSlashes(Segments(root, 0))
  {
    JoinSegments(root, 0);
    SegmentsPlain(root, 0);
    assert root[0..] == root && root + "" == root;
  }

  /** A text that is joined from segments has these segments. */
  lemma {:induction false} SegmentsJoined(t: CStr, x: CStr, post: seq<CStr>, whole: bool)
    requires NoSlashes(post)
    requires if whole then t == x + Join(post) else post != [] && post[|post| - 1] != "" && t + "/" == x + Join(post)
    ensures |x| <= |t| && Segments(t, |x|) == post
    decreases |post|
  {
    if post != [] {
      var w, rest := post[0], post[1..];
      var y: CStr := x + w + "/";
      JoinSplit(x, post);
      Cut(t, x, w, Join(rest));
      SegEndWord(t, |x|, w);
      assert post == [w] + rest;
      if |x| + |w| < |t| {
        assert !whole ==> rest != [] && rest[|rest| - 1] == post[|post| - 1];
        SegmentsJoined(t, y, rest, whole);
      }
    }
  }

  /** For every root and every relative addpath: the segments of the merged path are what the stack of written
      segments gives, whenever a merge without SECUREROOTTEST succeeds; a slash ends it unless it is empty, or
      the last segment of addpath was put on the stack and no slash follows it there. */
  lemma MergeIsRawStack(root: CStr, add: CStr, f: Flags)
    requires At(add, 0) != '/' && !f.secureRootTest && Merged(root, add, f).Ok?
    ensures var t, st := Merged(root, add, f).path, RawFold(Segments(root, 0), Segments(add, 0));
            && Segments(t, 0) == st
            && (EndsInSlash(t) <==> st != [] && !Bare(Segments(root, 0), Segments(add, 0), EndsInSlash(add)))
  {
    var base, st := RootSlash(root), Segments(root, 0);
    RootJoined(root);
    SegmentsPlain(add, 0);
    forall q: seq<CStr>, kept: nat, seg: CStr, more: bool | NoSlashes(q) && '/' !in seg
      ensures RawTurned(q, seg, more, StepOf(false)(Join(q), kept, seg, more))
    {
      RawTurn(q, kept, seg, more);
    }
    RawFollows(StepOf(false), st, |base|, Segments(add, 0), EndsInSlash(add));
    WalkIsFold(base, |base|, add, 0, false);
    SpelledSegments(Merged(root, add, f).path, RawFold(st, Segments(add, 0)), Bare(st, Segments(add, 0), EndsInSlash(add)));
  }

  lemma SpelledSegments(t: CStr, st: seq<CStr>, bare: bool)
    requires RawSpells(t, st, bare) && NoSlashes(st)
    ensures Segments(t, 0) == st && (EndsInSlash(t) <==> st != [] && !bare)
  {
    assert "" + Join(st) == Join(st);
    SegmentsJoined(t, "", st, !bare);
    SpelledEnd(t, st, bare);
  }

  lemma {:induction false} SpelledEnd(t: CStr, st: seq<CStr>, bare: bool)
    requires RawSpells(t, st, bare) && NoSlashes(st)
    ensures EndsInSlash(t) <==> st != [] && !bare
  {
    if st != [] {
      var x, w := Join(st[..|st| - 1]), st[|st| - 1];
      JoinLast(st);
      if bare {
        SameCut(t, x + w);
        assert t[|t| - 1] == w[|w| - 1] && w[|w| - 1] in w;
      }
    }
  }

  // ------------------------------------------------------------------- idempotence

  /** There is nothing to resolve in the text: no empty segment, no ".", and ".." only in front of a
      relative path. */
  predicate CanonicalText(t: CStr) {
    Canon(At(t, 0) == '/', Components(t, 0)) && Spells(t, At(t, 0) == '/', Components(t, 0))
  }

  lemma SpelledCanonical(t: CStr, abs: bool, st: seq<CStr>)
    requires Canon(abs, st) && Spells(t, abs, st)
    ensures CanonicalText(t)
  {
    SpelledComponents(t, abs, st);
  }

  /** Whatever is merged with nothing before it becomes canonical. */
  lemma WalkedCanonical(root: CStr, t: CStr)
    requires At(t, 0) == '/' || root == ""
    ensures WalkFrom(root, t, false).Walked? && CanonicalText(WalkFrom(root, t, false).text)
  {
    if At(t, 0) == '/' {
      RootedSpelled(root, t);
      SpelledCanonical(WalkFrom(root, t, false).text, true, StackFold(true, [], Segments(t, 0)));
    } else {
      assert Full(false, []) == "";
      WalkFollows(false, [], 0, t, 0);
      SpelledCanonical(WalkFrom(root, t, false).text, false, StackFold(false, [], Segments(t, 0)));
    }
  }

  /** A path that is merged with nothing before it stays as it is exactly if it is canonical. */
  lemma UnchangedIff(root: CStr, t: CStr)
    requires At(t, 0) == '/' || root == ""
    ensures WalkFrom(root, t, false).Walked? && (WalkFrom(root, t, false).text == t <==> CanonicalText(t))
  {
    WalkedCanonical(root, t);
    if CanonicalText(t) {
      SpelledUnchanged(root, t, At(t, 0) == '/', Components(t, 0));
    }
  }

  /** Merging a merged path again, as the path to add, under any flags but SECUREROOTTEST and for every root of
      the first merge: if that succeeds it changes nothing, exactly if the merged path is canonical; and
      then when it succeeds is told exactly. */
  lemma MergeIdempotent(root: CStr, add: CStr, f: Flags, root': CStr, f': Flags)
    requires Merged(root, add, f).Ok? && !f'.secureRootTest
    requires At(Merged(root, add, f).path, 0) == '/' || root' == ""
    ensures var r := Merged(root, add, f);
            && (Merged(root', r.path, f').Ok? ==> (Merged(root', r.path, f') == r <==> CanonicalText(r.path)))
            && (CanonicalText(r.path) ==>
                  (Merged(root', r.path, f').Ok? <==>
                     && |root'| + |r.path| + 4 <= PATH_MAX && (f'.notRelative ==> At(r.path, 0) == '/')
                     && (f'.notAboveRoot ==> Under(root', r.path))))
  {
    var t := Merged(root, add, f).path;
    UnchangedIff(root', t);
    SucceedsExactly(root', t, f');
  }

  /** The merged path is canonical if addpath is rooted, or the root is canonical. */
  lemma MergedCanonical(root: CStr, add: CStr, f: Flags)
    requires Merged(root, add, f).Ok? && !f.secureRootTest
    requires At(add, 0) == '/' || CanonicalRoot(root, At(root, 0) == '/')
    ensures CanonicalText(Merged(root, add, f).path)
  {
    var t, abs := Merged(root, add, f).path, At(root, 0) == '/';
    if At(add, 0) == '/' {
      MergeRooted(root, add, f);
      SpelledCanonical(t, true, StackFold(true, [], Segments(add, 0)));
    } else {
      MergeIsStack(root, add, abs, f);
      SpelledCanonical(t, abs, StackFold(abs, Components(root, 0), Segments(add, 0)));
    }
  }

  lemma {:induction false} RawKeepsSlash(st: seq<CStr>, segs: seq<CStr>)
    requires st != [] && st[0] == ""
    ensures var r := RawFold(st, segs); r != [] && r[0] == ""
    decreases |segs|
  {
    if segs != [] {
      RawKeepsSlash(RawStep(st, segs[0]), segs[1..]);
    }
  }

  lemma FirstSegment(t: CStr)
    ensures At(t, 0) == '/' <==> Segments(t, 0) != [] && Segments(t, 0)[0] == ""
  {
    if t != "" {
      var e := SegEnd(t, 0);
      assert Segments(t, 0)[0] == t[0..e];
    }
  }

  /** An absolute root gives an absolute path. */
  lemma StaysAbsolute(root: CStr, add: CStr, f: Flags)
    requires (At(root, 0) == '/' || At(add, 0) == '/') && !f.secureRootTest && Merged(root, add, f).Ok?
    ensures At(Merged(root, add, f).path, 0) == '/'
  {
    if At(add, 0) == '/' {
      MergeRooted(root, add, f);
    } else {
      MergeIsRawStack(root, add, f);
      FirstSegment(root);
      RawKeepsSlash(Segments(root, 0), Segments(add, 0));
      FirstSegment(Merged(root, add, f).path);
    }
  }

  /** The same merge again, with the result as the path to add, under the same absolute root and flags: if it
      fits it gives the same, exactly if the result is canonical. */
  lemma MergeAgain(root: CStr, add: CStr, f: Flags)
    requires (At(root, 0) == '/' || At(add, 0) == '/') && !f.secureRootTest && Merged(root, add, f).Ok?
    requires |root| + |Merged(root, add, f).path| + 4 <= PATH_MAX
    ensures var r := Merged(root, add, f); Merged(root, r.path, f) == r <==> CanonicalText(r.path)
  {
    StaysAbsolute(root, add, f);
    MergeIdempotent(root, add, f, root, f);
    if f.notAboveRoot {
      UnderRoot(root, add, f);
    }
  }

  /** A root with an empty segment: the segment stays, so the merged path is not canonical. */
  lemma EmptySegmentStays(f: Flags)
    requires !f.secureRootTest && Merged("//", "a", f).Ok?
    ensures Segments(Merged("//", "a", f).path, 0) == ["", "", "a"] && !CanonicalText(Merged("//", "a", f).path)
  {
    var t := Merged("//", "a", f).path;
    MergeIsRawStack("//", "a", f);
    TwoSlashes();
    OnePush();
    assert Segments(t, 0)[1] == "";
    if CanonicalText(t) {
      CanonicalSegments(t);
    }
  }

  lemma {:induction false} TwoSlashes()
    ensures Segments("//", 0) == ["", ""] && Segments("a", 0) == ["a"]
  {
    SegEndAt("//", 0, 0);
    SegEndAt("//", 1, 1);
    SegEndAt("a", 0, 1);
    assert "//"[0..0] == "" && "//"[1..1] == "";
    assert Segments("//", 2) == [] && Segments("//", 1) == [""];
    assert "a"[0..1] == "a" && Segments("a", 1) == [];
  }

  lemma {:induction false} OnePush()
    ensures RawFold(["", ""], ["a"]) == ["", "", "a"]
  {
    var st: seq<CStr>, segs: seq<CStr> := ["", ""], ["a"];
    assert segs[1..] == [];
    assert RawStep(st, segs[0]) == ["", "", "a"];
  }

  /** A canonical text has no empty segment but the one before a leading slash. */
  lemma CanonicalSegments(t: CStr)
    requires CanonicalText(t)
    ensures forall k :: 1 <= k < |Segments(t, 0)| ==> Segments(t, 0)[k] != ""
  {
    var abs, st := At(t, 0) == '/', Components(t, 0);
    SpelledRest(t, abs, st);
    SegmentsOfRest(t, |Full(abs, [])|, st);
    if abs {
      assert SegEnd(t, 0) == 0;
      assert Segments(t, 0) == [t[0..0]] + st;
    }
  }
}
