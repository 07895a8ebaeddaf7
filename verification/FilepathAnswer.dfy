/** What ch_filepath_merge answers, all of it: when it reads the working directory, each error, and what the
    flags promise of every success. */
module FilepathAnswer {
  import opened Common
  import opened CStrings
  import opened Filepath
  import opened FilepathProps
  import opened FilepathStack

  predicate Rooted(p: CStr) {
    p != "" && p[0] == '/'
  }

  // -------------------------------------------------------- the working directory

  /** No root is given and one is needed: to append a relative path to, unless it has to stay relative, or to test
      a rooted path against. */
  predicate NeedsCwd(root: Option<CStr>, add: CStr, f: Flags) {
    root.None? && !f.notAbsolute && (Rooted(add) ==> f.notAboveRoot && !f.secureRootTest)
  }

  /** The working directory has a say exactly where it is needed: there the answer is that for it as the given
      root, or an error if it cannot be read; elsewhere it is the same whatever it is, and no such error. */
  lemma CwdExactly(root: Option<CStr>, add: CStr, f: Flags, cwd: Option<CStr>, cwd': Option<CStr>)
    ensures Answer(root, add, f, cwd) == Err(Errno) <==> NeedsCwd(root, add, f) && cwd.None?
    ensures NeedsCwd(root, add, f) && cwd.Some? ==> Answer(root, add, f, cwd) == Answer(cwd, add, f, None)
    ensures !NeedsCwd(root, add, f) ==> Answer(root, add, f, cwd) == Answer(root, add, f, cwd')
  {
  }

  /** A NULL root that is not needed is the empty one. */
  lemma NullRoot(add: CStr, f: Flags, cwd: Option<CStr>)
    requires !NeedsCwd(None, add, f)
    ensures Answer(None, add, f, cwd) == Answer(Some(""), add, f, None)
  {
  }

  /** With a given root the working directory is never read. */
  lemma GivenRoot(root: CStr, add: CStr, f: Flags, cwd: Option<CStr>, cwd': Option<CStr>)
    ensures Answer(Some(root), add, f, cwd) == Answer(Some(root), add, f, cwd') && Answer(Some(root), add, f, cwd) != Err(Errno)
  {
  }

  // --------------------------------------------------------------------- errors

  /** The merged path where nothing is refused. */
  function Resolved(root: CStr, add: CStr): CStr {
    NeverAbove("/", 0, add, SkipSlashes(add, 0));
    NeverAbove(RootSlash(root), |RootSlash(root)|, add, 0);
    WalkFrom(root, add, false).text
  }

  /** Every error of a merge with a given root, and when it is answered: in this order. */
  lemma ErrorsExactly(root: CStr, add: CStr, f: Flags, cwd: Option<CStr>)
    ensures var r := Answer(Some(root), add, f, cwd);
            if f.secureRootTest && Rooted(add) then r == Err(EAboveRoot)
            else if f.notAbsolute && (Rooted(add) || Rooted(root)) then r == Err(EAbsolute)
            else if |root| + |add| + 4 > PATH_MAX then r == Err(ENameTooLong)
            else if f.notRelative && !Rooted(add) && !Rooted(root) then r == Err(ERelative)
            else if f.secureRootTest && Escapes(Segments(add, 0), 0) then r == Err(EAboveRoot)
            else if f.notAboveRoot && !Under(root, Resolved(root, add)) then r == Err(EAboveRoot)
            else r == Ok(Resolved(root, add))
  {
    if f.secureRootTest && !Rooted(add) {
      SecureRefusesExactly(root, add, f);
      SecureUnder(root, add);
    }
    var g := f.(secureRootTest := false);
    SucceedsExactly(root, add, g);
  }

  /** A walk that the test lets through keeps the root in front. */
  lemma SecureUnder(root: CStr, add: CStr)
    requires !Rooted(add)
    ensures var w := Walk(RootSlash(root), |RootSlash(root)|, add, 0, true);
            w.Walked? ==> RootSlash(root) <= w.text && Under(root, w.text) &&
                          w == Walk(RootSlash(root), |RootSlash(root)|, add, 0, false)
  {
    var base := RootSlash(root);
    WalkKept(base, base, |base|, add, 0, true);
    SecureSame(base, |base|, add, 0);
    var w := Walk(base, |base|, add, 0, true);
    if w.Walked? {
      assert base == w.text[..|base|];
      KeptRoot(root, w.text, w.kept);
    }
  }

  // ------------------------------------------------------- what the flags promise

  /** The root that is used where none is given. */
  function Used(root: Option<CStr>, f: Flags, cwd: Option<CStr>): CStr {
    if root.Some? then root.value else if f.notAbsolute || cwd.None? then "" else cwd.value
  }

  /** SECUREROOTTEST: no rooted path succeeds, and every success has the slash-terminated root in front. */
  lemma SecureContains(root: Option<CStr>, add: CStr, f: Flags, cwd: Option<CStr>)
    requires f.secureRootTest
    ensures Rooted(add) ==> Answer(root, add, f, cwd) == Err(EAboveRoot)
    ensures Answer(root, add, f, cwd).Ok? ==> RootSlash(Used(root, f, cwd)) <= Answer(root, add, f, cwd).path
  {
    if !Rooted(add) {
      SecureUnder(Used(root, f, cwd), add);
    }
  }

  /** NOTABOVEROOT: every success has the root in front, on a component boundary. */
  lemma AboveNever(root: Option<CStr>, add: CStr, f: Flags, cwd: Option<CStr>)
    requires f.notAboveRoot && Answer(root, add, f, cwd).Ok?
    ensures Under(Used(root, f, cwd), Answer(root, add, f, cwd).path)
  {
    UnderRoot(Used(root, f, cwd), add, f);
  }

  lemma {:induction false} RawStaysRelative(st: seq<CStr>, segs: seq<CStr>)
    requires st == [] || st[0] != ""
    ensures var r := RawFold(st, segs); r == [] || r[0] != ""
    decreases |segs|
  {
    if segs != [] {
      RawStaysRelative(RawStep(st, segs[0]), segs[1..]);
    }
  }

  lemma MergedRelative(root: CStr, add: CStr, f: Flags)
    requires !Rooted(root) && !Rooted(add) && Merged(root, add, f).Ok?
    ensures !Rooted(Merged(root, add, f).path)
  {
    var g := f.(secureRootTest := false, notAboveRoot := false);
    var t := Merged(root, add, f).path;
    if f.secureRootTest {
      SecureUnder(root, add);
    }
    assert Merged(root, add, g) == Ok(t);
    MergeIsRawStack(root, add, g);
    FirstSegment(root);
    RawStaysRelative(Segments(root, 0), Segments(add, 0));
    FirstSegment(t);
  }

  /** NOTABSOLUTE: every success is a relative path, and it refuses exactly a rooted addpath, unless
      SECUREROOTTEST has done so, and a rooted root. */
  lemma NeverAbsolute(root: Option<CStr>, add: CStr, f: Flags, cwd: Option<CStr>)
    ensures Answer(root, add, f, cwd) == Err(EAbsolute) <==>
            && f.notAbsolute
            && if Rooted(add) then !f.secureRootTest else root.Some? && Rooted(root.value)
    ensures f.notAbsolute && Answer(root, add, f, cwd).Ok? ==> !Rooted(Answer(root, add, f, cwd).path)
  {
    if f.notAbsolute && Answer(root, add, f, cwd).Ok? {
      MergedRelative(Used(root, f, cwd), add, f);
    }
  }

  /** NOTRELATIVE: every success is a rooted path. */
  lemma NeverRelative(root: Option<CStr>, add: CStr, f: Flags, cwd: Option<CStr>)
    requires f.notRelative && Answer(root, add, f, cwd).Ok?
    ensures Rooted(Answer(root, add, f, cwd).path)
  {
    var used := if Rooted(add) && root.None? && !f.notAboveRoot then "" else Used(root, f, cwd);
    var g := f.(secureRootTest := false, notAboveRoot := false);
    if f.secureRootTest {
      SecureUnder(used, add);
    }
    assert Merged(used, add, g) == Answer(root, add, f, cwd);
    StaysAbsolute(used, add, g);
  }
}
