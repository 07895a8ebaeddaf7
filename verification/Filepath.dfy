/** ch_filepath_merge of lib/common/ch_filepath.c: append a path to a root path and
    resolve "." and ".." on the way, in one character buffer.

    `Walk` says what the buffer holds and how much of the root is kept, segment by
    segment.  The method is proved to compute it inside its buffer; on `Walk` the
    stack semantics, the root containment and idempotence are proved. */
module Filepath {
  import opened Common
  import opened CStrings

  const PATH_MAX := 8192

  datatype Flags = Flags(notAboveRoot: bool, secureRootTest: bool, notRelative: bool, notAbsolute: bool)

  datatype Error = EAboveRoot | EAbsolute | ERelative | ENameTooLong | Errno

  datatype Outcome = Ok(path: CStr) | Err(error: Error)

  // ------------------------------------------------------- the text, by segments

  /** Where the segment of s that starts at i ends: at the next slash or at the end. */
  function SegEnd(s: CStr, i: nat): (e: nat)
    requires i <= |s|
    ensures i <= e <= |s|
    ensures forall q :: i <= q < e ==> s[q] != '/'
    ensures e < |s| ==> s[e] == '/'
    decreases |s| - i
  {
    if i == |s| || s[i] == '/' then i else SegEnd(s, i + 1)
  }

  predicate EndsWith(c: CStr, t: CStr) {
    |c| >= |t| && c[|c| - |t|..] == t
  }

  /** Nothing left to go back over: the text is empty or ends in a ".." segment. */
  predicate Backpathed(c: CStr) {
    c == "" || c == "../" || EndsWith(c, "/../")
  }

  /** Drop back to just after a slash, or to nothing. */
  function BackToSlash(c: CStr): (r: CStr)
    ensures r <= c && (r == "" || r[|r| - 1] == '/')
  {
    if c == "" || c[|c| - 1] == '/' then c else BackToSlash(c[..|c| - 1])
  }

  function Crop(c: CStr): (r: CStr)
    requires c != ""
    ensures r < c && (r == "" || r[|r| - 1] == '/')
  {
    BackToSlash(c[..|c| - 1])
  }

  /** The text in the buffer and the length of the root that is still untouched. */
  datatype Walked = Above | Walked(text: CStr, kept: nat)

  /** The effect of one segment; `more` says that a slash follows it. */
  function Step(c: CStr, kept: nat, seg: CStr, more: bool, secure: bool): Walked {
    if seg == "" || seg == "." then Walked(c, kept)
    else if seg == ".." then
      if c == "/" then
        if secure then Above else Walked(c, 0)
      else if Backpathed(c) then
        if secure then Above else Walked(c + (if more then "../" else ".."), kept)
      else if |Crop(c)| < kept then
        if secure then Above else Walked(Crop(c), |Crop(c)|)
      else Walked(Crop(c), kept)
    else Walked(c + seg + (if more then "/" else ""), kept)
  }

  function Walk(c: CStr, kept: nat, add: CStr, i: nat, secure: bool): Walked
    requires i <= |add|
    decreases |add| - i
  {
    if i == |add| then Walked(c, kept)
    else
      var e := SegEnd(add, i);
      match Step(c, kept, add[i..e], e < |add|, secure)
      case Above => Above
      case Walked(c', kept') => Walk(c', kept', add, if e < |add| then e + 1 else e, secure)
  }

  /** The root with a slash at its end, unless it is empty. */
  function RootSlash(root: CStr): CStr {
    if root == "" || root[|root| - 1] == '/' then root else root + "/"
  }

  /** The index after the leading slashes. */
  function SkipSlashes(s: CStr, i: nat): (r: nat)
    requires i <= |s|
    ensures i <= r <= |s| && (r < |s| ==> s[r] != '/')
    decreases |s| - i
  {
    if i < |s| && s[i] == '/' then SkipSlashes(s, i + 1) else i
  }

  function WalkFrom(root: CStr, add: CStr, secure: bool): Walked {
    if At(add, 0) == '/' then Walk("/", 0, add, SkipSlashes(add, 0), secure)
    else Walk(RootSlash(root), |RootSlash(root)|, add, 0, secure)
  }

  // ------------------------------------------------------------- the buffer code

  /** The do-while of lines 221-223. */
  method CropBuffer(path: array<char>, n: nat) returns (r: nat)
    requires 0 < n <= path.Length && '\0' !in path[..n]
    ensures r < n && path[..r] == Crop(path[..n])
  {
    r := n - 1;
    assert path[..n][..n - 1] == path[..r];
    while r > 0 && path[r - 1] != '/'
      invariant 0 <= r < n && '\0' !in path[..r]
      invariant BackToSlash(path[..n - 1]) == BackToSlash(path[..r])
    {
      assert path[..r][..r - 1] == path[..r - 1];
      r := r - 1;
    }
  }

  /** One turn of the loop, lines 181-244, on the segment seg. */
  method StepBuffer(path: array<char>, n: nat, kept: nat, seg: CStr, more: bool, secure: bool)
      returns (ok: bool, pathlen: nat, keptlen: nat)
    requires n + |seg| + (if more then 1 else 0) < path.Length && '\0' !in path[..n] && kept <= n
    modifies path
    ensures pathlen <= n + |seg| + (if more then 1 else 0) && (ok ==> keptlen <= pathlen)
    ensures match Step(old(path[..n]), kept, seg, more, secure)
            case Above => !ok
            case Walked(c, k) => ok && path[..pathlen] == c && keptlen == k
  {
    ok, pathlen, keptlen := true, n, kept;
    ghost var c: CStr := path[..n];
    if |seg| == 0 || (|seg| == 1 && seg[0] == '.') {
    } else if |seg| == 2 && seg[0] == '.' && seg[1] == '.' {
      assert seg == "..";
      if pathlen == 1 && path[0] == '/' {
        if secure {
          ok := false;
          return;
        }
        keptlen := 0;
      } else if pathlen == 0
             || (pathlen == 3 && path[0..3] == "../")
             || (pathlen > 3 && path[pathlen - 4..pathlen] == "/../") {
        assert Backpathed(c);
        if secure {
          ok := false;
          return;
        }
        CopyInto(path, pathlen, if more then "../" else "..");
        pathlen := pathlen + if more then 3 else 2;
      } else {
        assert !Backpathed(c);
        pathlen := CropBuffer(path, pathlen);
      }
      if pathlen < keptlen {
        if secure {
          ok := false;
          return;
        }
        keptlen := pathlen;
      }
    } else {
      var text := if more then seg + "/" else seg;
      CopyInto(path, pathlen, text);
      pathlen := pathlen + |text|;
    }
  }

  /** Lines 175-179. */
  method FindSegEnd(add: CStr, i: nat) returns (next: nat)
    requires i <= |add|
    ensures next == SegEnd(add, i)
  {
    next := i;
    while At(add, next) != '\0' && add[next] != '/'
      invariant i <= next <= |add|
      invariant SegEnd(add, i) == SegEnd(add, next)
      decreases |add| - next
    {
      next := next + 1;
    }
  }

  /** One turn of the loop over addpath, from index i to index next. */
  method TurnBuffer(path: array<char>, n: nat, kept: nat, add: CStr, i: nat, secure: bool, ghost text: CStr)
      returns (ok: bool, pathlen: nat, keptlen: nat, next: nat, ghost text': CStr)
    requires i < |add| && n + (|add| - i) < path.Length && path[..n] == text && kept <= n
    modifies path
    ensures i < next <= |add|
    ensures var w := Walk(text, kept, add, i, secure);
            if ok then && pathlen + (|add| - next) < path.Length && keptlen <= pathlen && path[..pathlen] == text'
                       && w == Walk(text', keptlen, add, next, secure)
            else w == Above
  {
    next := FindSegEnd(add, i);
    var more := At(add, next) != '\0';
    var seg: CStr := add[i..next];
    WalkStep(text, kept, add, i, secure);
    ghost var w := Step(text, kept, seg, more, secure);
    text' := text;
    ok, pathlen, keptlen := StepBuffer(path, n, kept, seg, more, secure);
    if ok {
      text' := w.text;
    }
    if more {
      next := next + 1;
    }
  }

  /** The loop over addpath, lines 172-254. */
  method WalkBuffer(path: array<char>, n: nat, kept: nat, add: CStr, i: nat, secure: bool)
      returns (ok: bool, pathlen: nat, keptlen: nat)
    requires i <= |add| && n + (|add| - i) < path.Length && '\0' !in path[..n] && kept <= n
    modifies path
    ensures match Walk(old(path[..n]), kept, add, i, secure)
            case Above => !ok
            case Walked(c, k) => ok && pathlen < path.Length && path[..pathlen] == c && keptlen == k && k <= pathlen
    ensures ok ==> path[pathlen] == '\0'
  {
    ghost var text: CStr := path[..n];
    ghost var goal := Walk(text, kept, add, i, secure);
    var at := i;
    ok, pathlen, keptlen := true, n, kept;
    while At(add, at) != '\0'
      invariant i <= at <= |add|
      invariant pathlen + (|add| - at) < path.Length && keptlen <= pathlen && path[..pathlen] == text
      invariant goal == Walk(text, keptlen, add, at, secure)
      decreases |add| - at
    {
      ok, pathlen, keptlen, at, text := TurnBuffer(path, pathlen, keptlen, add, at, secure, text);
      if !ok {
        return;
      }
    }
    path[pathlen] := '\0';
    assert path[..pathlen] == text;
  }

  lemma WalkStep(c: CStr, kept: nat, add: CStr, i: nat, secure: bool)
    requires i < |add|
    ensures var e := SegEnd(add, i);
            Walk(c, kept, add, i, secure) ==
            match Step(c, kept, add[i..e], e < |add|, secure)
            case Above => Above
            case Walked(c', kept') => Walk(c', kept', add, if e < |add| then e + 1 else e, secure)
  {
  }

  /** The test of lines 262-270 on the merged text t. */
  predicate AboveRoot(root: CStr, t: CStr, kept: nat, f: Flags) {
    && f.notAboveRoot && kept < |root|
    && (!(root <= t) || (root[|root| - 1] != '/' && |t| > |root| && t[|root|] != '/'))
  }

  /** What the merge answers once the root is known. */
  function Merged(root: CStr, add: CStr, f: Flags): Outcome {
    if |root| + |add| + 4 > PATH_MAX then Err(ENameTooLong)
    else if At(add, 0) != '/' && At(root, 0) != '/' && f.notRelative then Err(ERelative)
    else
      match WalkFrom(root, add, f.secureRootTest)
      case Above => Err(EAboveRoot)
      case Walked(t, kept) => if AboveRoot(root, t, kept, f) then Err(EAboveRoot) else Ok(t)
  }

  /** The early exits on the flags, and the root that is used: given, empty, or the
      working directory `cwd` (None when it cannot be read). */
  function ChooseRoot(root: Option<CStr>, add: CStr, f: Flags, cwd: Option<CStr>): Outcome {
    if At(add, 0) == '/' then
      if f.secureRootTest then Err(EAboveRoot)
      else if f.notAbsolute then Err(EAbsolute)
      else if root.None? && !f.notAboveRoot then Ok("")
      else if root.None? then if cwd.None? then Err(Errno) else Ok(cwd.value)
      else Ok(root.value)
    else if f.notAbsolute && root.None? then Ok("")
    else if f.notAbsolute && At(root.value, 0) == '/' then Err(EAbsolute)
    else if root.None? then if cwd.None? then Err(Errno) else Ok(cwd.value)
    else Ok(root.value)
  }

  /** The whole operation: the root is chosen, and the paths are merged. */
  function Answer(root: Option<CStr>, add: CStr, f: Flags, cwd: Option<CStr>): Outcome {
    match ChooseRoot(root, add, f, cwd)
    case Err(e) => Err(e)
    case Ok(used) => Merged(used, add, f)
  }

  /** strncmp over the whole root, against the terminated text in the buffer. */
  method SamePrefix(root: CStr, path: array<char>, n: nat) returns (same: bool)
    requires n < path.Length && path[n] == '\0' && '\0' !in path[..n]
    ensures same <==> root <= path[..n]
  {
    var k := 0;
    while k < |root|
      invariant 0 <= k <= |root| && k <= n && root[..k] == path[..k]
    {
      if root[k] != path[k] {
        assert k < n ==> path[..n][k] != root[k];
        return false;
      }
      assert k < n by {
        assert root[k] in root;
      }
      k := k + 1;
    }
    return true;
  }

  method StripSlashes(add: CStr) returns (at: nat)
    ensures at == SkipSlashes(add, 0)
  {
    at := 0;
    while At(add, at) == '/'
      invariant 0 <= at <= |add| && SkipSlashes(add, 0) == SkipSlashes(add, at)
      decreases |add| - at
    {
      at := at + 1;
    }
  }

  /** Lines 161-169: the root, always with a slash at its end. */
  method CopyRoot(path: array<char>, root: CStr) returns (keptlen: nat)
    requires |root| < path.Length
    modifies path
    ensures keptlen <= |root| + 1 && keptlen <= path.Length && path[..keptlen] == RootSlash(root)
  {
    keptlen := |root|;
    CopyInto(path, 0, root);
    assert path[..keptlen] == root;
    if keptlen != 0 && path[keptlen - 1] != '/' {
      path[keptlen] := '/';
      keptlen := keptlen + 1;
      assert path[..keptlen] == root + "/";
    }
  }

  /** Lines 87-131. */
  method PickRoot(rootpath: Option<CStr>, add: CStr, f: Flags, cwd: Option<CStr>) returns (r: Outcome)
    ensures r == ChooseRoot(rootpath, add, f, cwd)
  {
    var root := rootpath;
    if At(add, 0) == '/' {
      if f.secureRootTest {
        return Err(EAboveRoot);
      }
      if f.notAbsolute {
        return Err(EAbsolute);
      }
      if root.None? && !f.notAboveRoot {
        root := Some("");
      }
    } else if f.notAbsolute {
      if root.None? {
        root := Some("");
      } else if At(root.value, 0) == '/' {
        return Err(EAbsolute);
      }
    }
    if root.None? {
      if cwd.None? {
        return Err(Errno);
      }
      root := cwd;
    }
    return Ok(root.value);
  }

  /** ch_filepath_merge. */
  method Merge(rootpath: Option<CStr>, addpath: Option<CStr>, f: Flags, cwd: Option<CStr>) returns (r: Outcome)
    ensures r == Answer(rootpath, if addpath.Some? then addpath.value else "", f, cwd)
  {
    var add: CStr := if addpath.Some? then addpath.value else "";
    var chosen := PickRoot(rootpath, add, f, cwd);
    if chosen.Err? {
      return chosen;
    }
    var root := chosen.path;
    var rootlen := |root|;
    var maxlen := rootlen + |add| + 4;
    if maxlen > PATH_MAX {
      return Err(ENameTooLong);
    }
    var path := new char[maxlen](_ => '\0');
    var at, pathlen, keptlen := 0, 0, 0;
    if At(add, 0) == '/' {
      at := StripSlashes(add);
      path[0] := '/';
      pathlen := 1;
      assert path[..1] == "/";
    } else {
      if At(root, 0) != '/' && f.notRelative {
        return Err(ERelative);
      }
      keptlen := CopyRoot(path, root);
      pathlen := keptlen;
    }
    ghost var text: CStr := path[..pathlen];
    ghost var w := Walk(text, keptlen, add, at, f.secureRootTest);
    assert w == WalkFrom(root, add, f.secureRootTest);
    var ok;
    ok, pathlen, keptlen := WalkBuffer(path, pathlen, keptlen, add, at, f.secureRootTest);
    if !ok {
      return Err(EAboveRoot);
    }
    var above := TestAbove(path, pathlen, keptlen, root, w.text, f);
    if above {
      return Err(EAboveRoot);
    }
    return Ok(path[..pathlen]);
  }

  /** Lines 262-270. */
  method TestAbove(path: array<char>, n: nat, keptlen: nat, root: CStr, ghost t: CStr, f: Flags) returns (above: bool)
    requires n < path.Length && path[n] == '\0' && path[..n] == t
    ensures above <==> AboveRoot(root, t, keptlen, f)
  {
    if f.notAboveRoot && keptlen < |root| {
      var same := SamePrefix(root, path, n);
      if !same {
        return true;
      }
      if root[|root| - 1] != '/' && path[|root|] != '\0' && path[|root|] != '/' {
        assert |root| < n;
        return true;
      }
      assert |root| < n ==> path[|root|] in path[..n];
    }
    return false;
  }
}
