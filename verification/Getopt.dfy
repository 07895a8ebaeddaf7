/** ch_getopt_long of lib/common/ch_getopt.c, on values: one call, a run of calls, and
    the partition of the words that a whole run makes.

    `Partition` reads the words once from left to right and knows nothing of `place`,
    of the skip range or of moving words about; `RunIsPartition` relates the two. */
module Getopt {
  import opened Common
  import opened CStrings

  /** A row of the caller's table; a row with optch == 0 ends the search. */
  datatype Opt = Opt(name: Option<CStr>, optch: int, hasArg: bool)

  datatype Report = Report(optch: int, arg: Option<CStr>)

  datatype Status = Success | Eof | BadCh | BadArg

  // ------------------------------------------------------------- the table

  /** The first row with the letter c. */
  function FindShort(opts: seq<Opt>, c: char, i: nat): (r: Option<Opt>)
    requires i <= |opts|
    ensures r.Some? ==> r.value in opts && r.value.optch == Ord(c)
    decreases |opts| - i
  {
    if i == |opts| || opts[i].optch == 0 then None
    else if opts[i].optch == Ord(c) then Some(opts[i])
    else FindShort(opts, c, i + 1)
  }

  predicate NameMatches(p: CStr, o: Opt) {
    o.name.Some? && o.name.value <= p && (|p| == |o.name.value| || p[|o.name.value|] == '=')
  }

  /** The first row whose name is p, or what stands before '=' in p. */
  function FindLong(opts: seq<Opt>, p: CStr, i: nat): (r: Option<Opt>)
    requires i <= |opts|
    ensures r.Some? ==> r.value in opts && NameMatches(p, r.value)
    decreases |opts| - i
  {
    if i == |opts| || opts[i].optch == 0 then None
    else if NameMatches(p, opts[i]) then Some(opts[i])
    else FindLong(opts, p, i + 1)
  }

  predicate IsOption(w: CStr) {
    w != "" && w[0] == '-'
  }

  predicate IsLong(w: CStr) {
    |w| > 2 && w[0] == '-' && w[1] == '-'
  }

  // -------------------------------------------------------------- one call

  /** The words after argv[0]: options with their arguments, words passed over, words
      not looked at yet; and the letters left in the last option word. */
  datatype Args = Args(consumed: seq<CStr>, skipped: seq<CStr>, rest: seq<CStr>, place: CStr)

  datatype Outcome = Got(report: Report, args: Args) | Done(args: Args) | Bad(status: Status)

  /** The first n words of the rest are consumed: they move in front of the skipped ones. */
  function Consume(a: Args, n: nat, place: CStr): Args
    requires n <= |a.rest|
  {
    Args(a.consumed + a.rest[..n], a.skipped, a.rest[n..], place)
  }

  /** The first option word of the rest, or its length. */
  function Leading(rest: seq<CStr>, i: nat): (k: nat)
    requires i <= |rest|
    ensures i <= k <= |rest|
    ensures forall j :: i <= j < k ==> !IsOption(rest[j])
    ensures k < |rest| ==> IsOption(rest[k])
    decreases |rest| - i
  {
    if i == |rest| || IsOption(rest[i]) then i else Leading(rest, i + 1)
  }

  function Skip(a: Args, interleave: bool): Args {
    if !interleave then a
    else
      var k := Leading(a.rest, 0);
      a.(skipped := a.skipped + a.rest[..k], rest := a.rest[k..])
  }

  /** Lines 210-243 on the word w == a.rest[0]. */
  function LongOption(a: Args, opts: seq<Opt>): Outcome
    requires a.rest != [] && IsLong(a.rest[0])
  {
    var p: CStr := a.rest[0][2..];
    match FindLong(opts, p, 0)
    case None => Bad(BadCh)
    case Some(o) =>
      var len := |o.name.value|;
      if o.hasArg then
        if |p| > len then Got(Report(o.optch, Some(p[len + 1..])), Consume(a, 1, ""))
        else if |a.rest| == 1 then Bad(BadArg)
        else Got(Report(o.optch, Some(a.rest[1])), Consume(a, 2, ""))
      else if |p| > len then Bad(BadArg)
      else Got(Report(o.optch, None), Consume(a, 1, ""))
  }

  /** Lines 260-285; `taken` words of the rest are used already. */
  function ShortOption(a: Args, opts: seq<Opt>, p: CStr, taken: nat): Outcome
    requires p != "" && taken <= |a.rest|
  {
    match FindShort(opts, p[0], 0)
    case None => Bad(BadCh)
    case Some(o) =>
      if !o.hasArg then Got(Report(o.optch, None), Consume(a, taken, p[1..]))
      else if |p| > 1 then Got(Report(o.optch, Some(p[1..])), Consume(a, taken, ""))
      else if |a.rest| == taken then Bad(BadArg)
      else Got(Report(o.optch, Some(a.rest[taken])), Consume(a, taken + 1, ""))
  }

  /** One call of ch_getopt_long. */
  function Next(args: Args, opts: seq<Opt>, interleave: bool): (r: Outcome)
    ensures r.Got? ==> |r.args.rest| < |args.rest| || (|r.args.rest| == |args.rest| && |r.args.place| < |args.place|)
  {
    if args.place != "" then ShortOption(args, opts, args.place, 0)
    else
      var a := Skip(args, interleave);
      if a.rest == [] || !IsOption(a.rest[0]) then Done(a)
      else if IsLong(a.rest[0]) then LongOption(a, opts)
      else if a.rest[0] == "--" then Done(Consume(a, 1, ""))
      else if a.rest[0] == "-" then Bad(BadCh)
      else ShortOption(a, opts, a.rest[0][1..], 1)
  }

  /** Calls until one does not succeed; the words are of no interest after an error. */
  datatype Ended = Ended(reports: seq<Report>, status: Status, args: Args)

  function RunFrom(a: Args, opts: seq<Opt>, interleave: bool): Ended
    decreases |a.rest|, |a.place|
  {
    match Next(a, opts, interleave)
    case Done(a') => Ended([], Eof, a')
    case Bad(status) => Ended([], status, Args([], [], [], ""))
    case Got(report, a') =>
      var e := RunFrom(a', opts, interleave);
      e.(reports := [report] + e.reports)
  }

  // ------------------------------------------------------------- partition

  /** What one option word asks for: its reports, how many of the following words it
      uses, and Success or the error that it ends in. */
  datatype Reading = Reading(reports: seq<Report>, extra: nat, status: Status)

  function ReadLetters(opts: seq<Opt>, p: CStr, next: Option<CStr>): (r: Reading)
    ensures next.None? && r.status == Success ==> r.extra == 0
    ensures r.extra <= 1 && r.status != Eof
    decreases |p|
  {
    if p == "" then Reading([], 0, Success)
    else match FindShort(opts, p[0], 0)
      case None => Reading([], 0, BadCh)
      case Some(o) =>
        if !o.hasArg then
          var r := ReadLetters(opts, p[1..], next);
          r.(reports := [Report(o.optch, None)] + r.reports)
        else if |p| > 1 then Reading([Report(o.optch, Some(p[1..]))], 0, Success)
        else if next.None? then Reading([], 0, BadArg)
        else Reading([Report(o.optch, next)], 1, Success)
  }

  function ReadLong(opts: seq<Opt>, p: CStr, next: Option<CStr>): (r: Reading)
    ensures next.None? && r.status == Success ==> r.extra == 0
    ensures r.extra <= 1 && r.status != Eof
  {
    match FindLong(opts, p, 0)
    case None => Reading([], 0, BadCh)
    case Some(o) =>
      var len := |o.name.value|;
      if |p| > len then
        if o.hasArg then Reading([Report(o.optch, Some(p[len + 1..]))], 0, Success) else Reading([], 0, BadArg)
      else if !o.hasArg then Reading([Report(o.optch, None)], 0, Success)
      else if next.None? then Reading([], 0, BadArg)
      else Reading([Report(o.optch, next)], 1, Success)
  }

  function ReadWord(opts: seq<Opt>, w: CStr, next: Option<CStr>): (r: Reading)
    requires IsOption(w)
    ensures next.None? && r.status == Success ==> r.extra == 0
    ensures r.extra <= 1 && r.status != Eof
  {
    if IsLong(w) then ReadLong(opts, w[2..], next)
    else if w == "-" then Reading([], 0, BadCh)
    else ReadLetters(opts, w[1..], next)
  }

  function Head(words: seq<CStr>, i: nat): Option<CStr> {
    if i < |words| then Some(words[i]) else None
  }

  /** used[i] says that word i is an option, its argument, or the closing "--". */
  datatype Parting = Parting(used: seq<bool>, reports: seq<Report>, status: Status)

  function Copies(b: bool, n: nat): (r: seq<bool>)
    ensures |r| == n && forall i :: 0 <= i < n ==> r[i] == b
  {
    seq(n, _ => b)
  }

  function Partition(opts: seq<Opt>, words: seq<CStr>, interleave: bool): (r: Parting)
    ensures r.status == Eof ==> |r.used| == |words|
    ensures r.status != Success
    decreases |words|
  {
    if words == [] then Parting([], [], Eof)
    else if !IsOption(words[0]) then
      if !interleave then Parting(Copies(false, |words|), [], Eof)
      else
        var r := Partition(opts, words[1..], interleave);
        r.(used := [false] + r.used)
    else if words[0] == "--" then Parting([true] + Copies(false, |words| - 1), [], Eof)
    else
      var w := ReadWord(opts, words[0], Head(words, 1));
      if w.status != Success then Parting([], w.reports, w.status)
      else
        var r := Partition(opts, words[1 + w.extra..], interleave);
        Parting(Copies(true, 1 + w.extra) + r.used, w.reports + r.reports, r.status)
  }

  /** The words with the mark b, in their order. */
  function Select(words: seq<CStr>, used: seq<bool>, b: bool): seq<CStr>
    requires |used| == |words|
    decreases |words|
  {
    if words == [] then []
    else (if used[0] == b then [words[0]] else []) + Select(words[1..], used[1..], b)
  }

  // --------------------------------------------------- a run is the partition

  lemma {:induction false} SelectConcat(v: seq<CStr>, w: seq<CStr>, m: seq<bool>, n: seq<bool>, b: bool)
    requires |v| == |m| && |w| == |n|
    ensures Select(v + w, m + n, b) == Select(v, m, b) + Select(w, n, b)
    decreases |v|
  {
    if v == [] {
      assert v + w == w && m + n == n;
    } else {
      assert (v + w)[1..] == v[1..] + w && (m + n)[1..] == m[1..] + n;
      SelectConcat(v[1..], w, m[1..], n, b);
    }
  }

  lemma {:induction false} SelectCopies(v: seq<CStr>, c: bool, b: bool)
    ensures Select(v, Copies(c, |v|), b) == if c == b then v else []
    decreases |v|
  {
    if v != [] {
      assert Copies(c, |v|)[1..] == Copies(c, |v[1..]|);
      SelectCopies(v[1..], c, b);
    }
  }

  /** A run ends as the words' marks say. */
  ghost predicate Follows(e: Ended, a: Args, words: seq<CStr>, r: Parting) {
    && e.status == r.status && e.reports == r.reports
    && (r.status == Eof ==>
          && |r.used| == |words|
          && e.args.consumed == a.consumed + Select(words, r.used, true)
          && e.args.skipped + e.args.rest == a.skipped + Select(words, r.used, false))
  }

  lemma {:induction false} SelectBlock(words: seq<CStr>, n: nat, c: bool, used: seq<bool>, b: bool)
    requires n <= |words| && |used| == |words| - n
    ensures Select(words, Copies(c, n) + used, b) == (if c == b then words[..n] else []) + Select(words[n..], used, b)
  {
    assert words == words[..n] + words[n..];
    SelectConcat(words[..n], words[n..], Copies(c, n), used, b);
    SelectCopies(words[..n], c, b);
  }

  /** A block of words with one mark in front. */
  lemma {:induction false} FollowsBlock(e: Ended, a: Args, a': Args, words: seq<CStr>, n: nat, c: bool, r: Parting, reports: seq<Report>)
    requires n <= |words| && Follows(e, a', words[n..], r)
    requires a'.consumed == a.consumed + (if c then words[..n] else [])
    requires a'.skipped == a.skipped + (if c then [] else words[..n])
    ensures Follows(e.(reports := reports + e.reports), a, words, Parting(Copies(c, n) + r.used, reports + r.reports, r.status))
  {
    if r.status == Eof {
      SelectBlock(words, n, c, r.used, true);
      SelectBlock(words, n, c, r.used, false);
    }
  }

  /** The rest of the run after the letters p, which may use the first word. */
  function AfterLetters(opts: seq<Opt>, p: CStr, words: seq<CStr>, interleave: bool): (r: Parting)
    ensures r.status == Eof ==> |r.used| == |words|
  {
    var w := ReadLetters(opts, p, Head(words, 0));
    if w.status != Success then Parting([], w.reports, w.status)
    else
      var r := Partition(opts, words[w.extra..], interleave);
      Parting(Copies(true, w.extra) + r.used, w.reports + r.reports, r.status)
  }

  lemma {:induction false} NoLetters(opts: seq<Opt>, words: seq<CStr>, interleave: bool)
    ensures AfterLetters(opts, "", words, interleave) == Partition(opts, words, interleave)
  {
    var r := Partition(opts, words, interleave);
    assert words[0..] == words;
    assert Copies(true, 0) + r.used == r.used && [] + r.reports == r.reports;
  }

  /** An option word of letters is its letters after the word is consumed. */
  lemma EnterLetters(a: Args, opts: seq<Opt>, p: CStr)
    requires p != "" && a.rest != []
    ensures ShortOption(a, opts, p, 1) == ShortOption(Consume(a, 1, p), opts, p, 0)
  {
    var a1 := Consume(a, 1, p);
    assert a.rest[1..][0..] == a.rest[1..];
    assert Consume(a1, 0, "") == Consume(a, 1, "");
    assert Consume(a1, 0, p[1..]) == Consume(a, 1, p[1..]);
    if |a.rest| > 1 {
      assert a.rest[..2] == a.rest[..1] + a.rest[1..][..1];
      assert a.rest[2..] == a.rest[1..][1..];
      assert Consume(a1, 1, "") == Consume(a, 2, "");
    }
  }

  /** Passing over one word. */
  function PassOne(a: Args): Args
    requires a.rest != []
  {
    a.(skipped := a.skipped + [a.rest[0]], rest := a.rest[1..])
  }

  lemma {:induction false} LeadingTail(rest: seq<CStr>, i: nat)
    requires 1 <= i <= |rest|
    ensures Leading(rest, i) == 1 + Leading(rest[1..], i - 1)
    decreases |rest| - i
  {
    if i < |rest| {
      LeadingTail(rest, i + 1);
    }
  }

  lemma SkipOne(a: Args)
    requires a.rest != [] && !IsOption(a.rest[0])
    ensures Skip(a, true) == Skip(PassOne(a), true)
  {
    LeadingTail(a.rest, 1);
    var k := Leading(a.rest, 0);
    assert k == Leading(a.rest, 1);
    assert a.rest[..k] == [a.rest[0]] + a.rest[1..][..k - 1];
    assert a.rest[k..] == a.rest[1..][k - 1..];
  }

  /** In front of an option word nothing is passed over. */
  lemma SkipNone(a: Args, interleave: bool)
    requires a.rest == [] || IsOption(a.rest[0]) || !interleave
    ensures Skip(a, interleave) == a
  {
    if interleave {
      assert a.rest[..0] == [] && a.rest[0..] == a.rest && a.skipped + [] == a.skipped;
    }
  }

  lemma {:induction false} LettersFollow(a: Args, opts: seq<Opt>, interleave: bool)
    requires a.place != ""
    ensures Follows(RunFrom(a, opts, interleave), a, a.rest, AfterLetters(opts, a.place, a.rest, interleave))
    decreases |a.rest|, |a.place|, 0
  {
    var p := a.place;
    var f := FindShort(opts, p[0], 0);
    assert a.rest[..0] == [] && a.rest[0..] == a.rest;
    if f.Some? {
      var o := f.value;
      var next := Next(a, opts, interleave);
      if !o.hasArg || |p| > 1 {
        RunFollows(next.args, opts, interleave);
        var w := AfterLetters(opts, next.args.place, a.rest, interleave);
        FollowsBlock(RunFrom(next.args, opts, interleave), a, next.args, a.rest, 0, true, w, [next.report]);
        LetterFirst(opts, p, a.rest, interleave, o, next);
      } else if a.rest != [] {
        RunFollows(next.args, opts, interleave);
        NoLetters(opts, a.rest[1..], interleave);
        var w := Partition(opts, a.rest[1..], interleave);
        FollowsBlock(RunFrom(next.args, opts, interleave), a, next.args, a.rest, 1, true, w, [next.report]);
      }
    }
  }

  lemma {:induction false} LetterFirst(opts: seq<Opt>, p: CStr, words: seq<CStr>, interleave: bool, o: Opt, next: Outcome)
    requires p != "" && FindShort(opts, p[0], 0) == Some(o) && next.Got?
    requires !o.hasArg || |p| > 1
    requires next.report.optch == o.optch && next.report.arg.Some? == o.hasArg
    requires o.hasArg ==> next.report.arg.value == p[1..]
    requires next.args.place == if o.hasArg then "" else p[1..]
    ensures var r, w := AfterLetters(opts, p, words, interleave), AfterLetters(opts, next.args.place, words, interleave);
            && r.status == w.status && r.reports == [next.report] + w.reports
            && (r.status == Eof ==> r.used == Copies(true, 0) + w.used)
  {
    if o.hasArg {
      NoLetters(opts, words, interleave);
      assert words[0..] == words;
    } else {
      var x, y := ReadLetters(opts, p, Head(words, 0)), ReadLetters(opts, p[1..], Head(words, 0));
      assert x == y.(reports := [next.report] + y.reports);
      if y.status == Success {
        var t := Partition(opts, words[y.extra..], interleave);
        assert [next.report] + y.reports + t.reports == [next.report] + (y.reports + t.reports);
      }
    }
  }

  lemma {:induction false} RunFollows(a: Args, opts: seq<Opt>, interleave: bool)
    ensures Follows(RunFrom(a, opts, interleave), a, a.rest, AfterLetters(opts, a.place, a.rest, interleave))
    decreases |a.rest|, |a.place|, 3
  {
    if a.place != "" {
      LettersFollow(a, opts, interleave);
    } else {
      NoLetters(opts, a.rest, interleave);
      WordFollows(a, opts, interleave);
    }
  }

  /** At the start of a word. */
  lemma {:induction false} WordFollows(a: Args, opts: seq<Opt>, interleave: bool)
    requires a.place == ""
    ensures Follows(RunFrom(a, opts, interleave), a, a.rest, Partition(opts, a.rest, interleave))
    decreases |a.rest|, 0, 2
  {
    if a.rest == [] || (!IsOption(a.rest[0]) && !interleave) {
      StopFollows(a, opts, interleave);
    } else if !IsOption(a.rest[0]) {
      WordFollows(PassOne(a), opts, true);
      PassFollows(a, opts);
    } else {
      SkipNone(a, interleave);
      OptionFollows(a, opts, interleave);
    }
  }

  lemma {:induction false} StopFollows(a: Args, opts: seq<Opt>, interleave: bool)
    requires a.place == "" && (a.rest == [] || (!IsOption(a.rest[0]) && !interleave))
    ensures Follows(RunFrom(a, opts, interleave), a, a.rest, Partition(opts, a.rest, interleave))
  {
    SkipNone(a, interleave);
    assert Next(a, opts, interleave) == Done(a);
    assert RunFrom(a, opts, interleave) == Ended([], Eof, a);
    if a.rest == [] {
      assert Partition(opts, a.rest, interleave) == Parting([], [], Eof);
    } else {
      SelectCopies(a.rest, false, true);
      SelectCopies(a.rest, false, false);
      assert Partition(opts, a.rest, interleave) == Parting(Copies(false, |a.rest|), [], Eof);
    }
  }

  lemma {:induction false} PassFollows(a: Args, opts: seq<Opt>)
    requires a.place == "" && a.rest != [] && !IsOption(a.rest[0])
    requires Follows(RunFrom(PassOne(a), opts, true), PassOne(a), a.rest[1..], Partition(opts, a.rest[1..], true))
    ensures Follows(RunFrom(a, opts, true), a, a.rest, Partition(opts, a.rest, true))
  {
    SkipOne(a);
    var e, r := RunFrom(PassOne(a), opts, true), Partition(opts, a.rest[1..], true);
    assert Next(a, opts, true) == Next(PassOne(a), opts, true);
    assert RunFrom(a, opts, true) == e;
    FollowsBlock(e, a, PassOne(a), a.rest, 1, false, r, []);
    assert [] + e.reports == e.reports && [] + r.reports == r.reports && Copies(false, 1) == [false];
  }

  /** The closing "--" is consumed and everything after it is left alone. */
  lemma {:induction false} DashesFollow(a: Args, opts: seq<Opt>, interleave: bool)
    requires a.place == "" && a.rest != [] && a.rest[0] == "--" && Skip(a, interleave) == a
    ensures Follows(RunFrom(a, opts, interleave), a, a.rest, Partition(opts, a.rest, interleave))
  {
    assert Next(a, opts, interleave) == Done(Consume(a, 1, ""));
    SelectFirst(a.rest);
  }

  lemma {:induction false} SelectFirst(words: seq<CStr>)
    requires words != []
    ensures Select(words, [true] + Copies(false, |words| - 1), true) == words[..1]
    ensures Select(words, [true] + Copies(false, |words| - 1), false) == words[1..]
  {
    var used := [true] + Copies(false, |words| - 1);
    assert used[1..] == Copies(false, |words[1..]|);
    SelectCopies(words[1..], false, true);
    SelectCopies(words[1..], false, false);
  }

  lemma {:induction false} OptionFollows(a: Args, opts: seq<Opt>, interleave: bool)
    requires a.place == "" && a.rest != [] && IsOption(a.rest[0]) && Skip(a, interleave) == a
    ensures Follows(RunFrom(a, opts, interleave), a, a.rest, Partition(opts, a.rest, interleave))
    decreases |a.rest|, 0, 1
  {
    var w := a.rest[0];
    if w == "--" {
      DashesFollow(a, opts, interleave);
    } else if IsLong(w) {
      LongFollows(a, opts, interleave);
    } else if w == "-" {
      assert Next(a, opts, interleave) == Bad(BadCh);
    } else {
      var a1 := Consume(a, 1, w[1..]);
      EnterLetters(a, opts, w[1..]);
      RunFollows(a1, opts, interleave);
      LettersWord(a, a1, opts, interleave);
    }
  }

  lemma {:induction false} LongFollows(a: Args, opts: seq<Opt>, interleave: bool)
    requires a.place == "" && a.rest != [] && IsLong(a.rest[0]) && Skip(a, interleave) == a
    ensures Follows(RunFrom(a, opts, interleave), a, a.rest, Partition(opts, a.rest, interleave))
    decreases |a.rest|, 0, 0
  {
    var next := Next(a, opts, interleave);
    var r := ReadWord(opts, a.rest[0], Head(a.rest, 1));
    if next.Got? {
      assert next.args == Consume(a, 1 + r.extra, "") && r == Reading([next.report], r.extra, Success);
      WordFollows(next.args, opts, interleave);
      FollowsBlock(RunFrom(next.args, opts, interleave), a, next.args, a.rest, 1 + r.extra, true,
                   Partition(opts, a.rest[1 + r.extra..], interleave), r.reports);
    }
  }

  /** Partition at an option word, unfolded. */
  lemma {:induction false} PartitionAtWord(opts: seq<Opt>, words: seq<CStr>, interleave: bool, w: Reading)
    requires words != [] && IsOption(words[0]) && words[0] != "--"
    requires w == ReadWord(opts, words[0], Head(words, 1)) && w.status == Success
    ensures var q := Partition(opts, words[1 + w.extra..], interleave);
            Partition(opts, words, interleave) == Parting(Copies(true, 1 + w.extra) + q.used, w.reports + q.reports, q.status)
  {
  }

  lemma {:induction false} AfterUnfolded(opts: seq<Opt>, p: CStr, words: seq<CStr>, interleave: bool, w: Reading)
    requires w == ReadLetters(opts, p, Head(words, 0)) && w.status == Success
    ensures var q := Partition(opts, words[w.extra..], interleave);
            AfterLetters(opts, p, words, interleave) == Parting(Copies(true, w.extra) + q.used, w.reports + q.reports, q.status)
  {
  }

  /** A word of letters is marked together with the word that it uses. */
  lemma {:induction false} LettersParted(opts: seq<Opt>, words: seq<CStr>, interleave: bool)
    requires words != [] && IsOption(words[0]) && !IsLong(words[0]) && words[0] != "--" && words[0] != "-"
    ensures var r, t := Partition(opts, words, interleave), AfterLetters(opts, words[0][1..], words[1..], interleave);
            && r.status == t.status && r.reports == [] + t.reports
            && (r.status == Eof ==> r.used == Copies(true, 1) + t.used)
  {
    var w := ReadWord(opts, words[0], Head(words, 1));
    assert w == ReadLetters(opts, words[0][1..], Head(words[1..], 0));
    if w.status == Success {
      PartitionAtWord(opts, words, interleave, w);
      AfterUnfolded(opts, words[0][1..], words[1..], interleave, w);
      var rest := words[1 + w.extra..];
      assert words[1..][w.extra..] == rest;
      CopiesSplit(w.extra, Partition(opts, rest, interleave).used);
    }
  }

  lemma CopiesSplit(n: nat, tail: seq<bool>)
    ensures Copies(true, 1 + n) + tail == Copies(true, 1) + (Copies(true, n) + tail)
  {
  }

  /** The letters of the word, then the rest: in all, the word with what it uses. */
  lemma {:induction false} LettersWord(a: Args, a1: Args, opts: seq<Opt>, interleave: bool)
    requires a.place == "" && a.rest != [] && IsOption(a.rest[0]) && !IsLong(a.rest[0])
    requires a.rest[0] != "--" && a.rest[0] != "-" && Skip(a, interleave) == a
    requires a1 == Consume(a, 1, a.rest[0][1..])
    requires ShortOption(a, opts, a1.place, 1) == ShortOption(a1, opts, a1.place, 0)
    requires Follows(RunFrom(a1, opts, interleave), a1, a1.rest, AfterLetters(opts, a1.place, a1.rest, interleave))
    ensures Follows(RunFrom(a, opts, interleave), a, a.rest, Partition(opts, a.rest, interleave))
  {
    assert Next(a, opts, interleave) == Next(a1, opts, interleave);
    var e := RunFrom(a1, opts, interleave);
    assert RunFrom(a, opts, interleave) == e;
    var t := AfterLetters(opts, a1.place, a1.rest, interleave);
    FollowsBlock(e, a, a1, a.rest, 1, true, t, []);
    LettersParted(opts, a.rest, interleave);
    assert [] + e.reports == e.reports;
  }

  // ---------------------------------------------------------- main results

  function Start(words: seq<CStr>): Args {
    Args([], [], words, "")
  }

  /** A whole run reports what the words say, and parts them stably: first the options
      with their arguments, then the other words, each in the original order. */
  lemma RunIsPartition(opts: seq<Opt>, words: seq<CStr>, interleave: bool)
    ensures var e, r := RunFrom(Start(words), opts, interleave), Partition(opts, words, interleave);
            && e.status == r.status && e.reports == r.reports
            && (r.status == Eof ==>
                  && e.args.consumed == Select(words, r.used, true)
                  && e.args.skipped + e.args.rest == Select(words, r.used, false))
  {
    WordFollows(Start(words), opts, interleave);
  }

  /** Nothing is lost and nothing doubled. */
  lemma {:induction false} SelectPermutes(words: seq<CStr>, used: seq<bool>)
    requires |used| == |words|
    ensures multiset(Select(words, used, true) + Select(words, used, false)) == multiset(words)
    decreases |words|
  {
    if words != [] {
      SelectPermutes(words[1..], used[1..]);
      assert words == [words[0]] + words[1..];
    }
  }
}
