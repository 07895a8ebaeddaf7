/** The code of ch_getopt_long in lib/common/ch_getopt.c: the words are moved in place
    in the copied argv by reversing ranges of it. */
module GetoptCode {
  import opened Common
  import opened CStrings
  import opened Getopt
  import opened Blocks

  // -------------------------------------------------------------- the parser

  method FindShortRow(opts: seq<Opt>, c: char) returns (found: Option<Opt>)
    ensures found == FindShort(opts, c, 0)
  {
    var i := 0;
    while true
      invariant 0 <= i <= |opts| && FindShort(opts, c, 0) == FindShort(opts, c, i)
      decreases |opts| - i
    {
      if i == |opts| || opts[i].optch == 0 {
        return None;
      }
      if Ord(c) == opts[i].optch {
        return Some(opts[i]);
      }
      i := i + 1;
    }
  }

  method FindLongRow(opts: seq<Opt>, p: CStr) returns (found: Option<Opt>)
    ensures found == FindLong(opts, p, 0)
  {
    var i := 0;
    while true
      invariant 0 <= i <= |opts| && FindLong(opts, p, 0) == FindLong(opts, p, i)
      decreases |opts| - i
    {
      if i == |opts| || opts[i].optch == 0 {
        return None;
      }
      if opts[i].name.Some? {
        var len := |opts[i].name.value|;
        if opts[i].name.value <= p && (At(p, len) == '\0' || At(p, len) == '=') {
          return Some(opts[i]);
        }
      }
      i := i + 1;
    }
  }

  /** The loop of lines 200-201: the first option word in the rest. */
  method FindOption(argv: array<CStr>, i: nat, ghost front: seq<CStr>, ghost rest: seq<CStr>) returns (k: nat)
    requires argv[..] == front + rest && |front| == i
    ensures k == i + Leading(rest, 0)
  {
    k := i;
    while k < argv.Length && At(argv[k], 0) != '-'
      invariant i <= k <= argv.Length
      invariant Leading(rest, 0) == Leading(rest, k - i)
    {
      assert argv[k] == argv[..][k] == rest[k - i];
      k := k + 1;
    }
    assert k < argv.Length ==> argv[k] == argv[..][k] == rest[k - i];
  }

  /** The whole vector: the program's name and then the words. */
  function Vector(prog: CStr, a: Args): seq<CStr> {
    [prog] + a.consumed + a.skipped + a.rest
  }

  /** Moving the first n words of the rest ahead of the skipped ones. */
  lemma MovedAhead(prog: CStr, a: Args, n: nat, place: CStr)
    requires n <= |a.rest|
    ensures Vector(prog, a) == ([prog] + a.consumed) + a.skipped + a.rest[..n] + a.rest[n..]
    ensures Vector(prog, Consume(a, n, place)) == ([prog] + a.consumed) + a.rest[..n] + a.skipped + a.rest[n..]
  {
    assert a.rest == a.rest[..n] + a.rest[n..];
    Regroup([prog] + a.consumed, a.skipped, a.rest[..n], a.rest[n..]);
  }

  lemma SkippedVector(prog: CStr, a: Args, interleave: bool)
    ensures Vector(prog, Skip(a, interleave)) == Vector(prog, a)
  {
    if interleave {
      var k := Leading(a.rest, 0);
      assert a.rest == a.rest[..k] + a.rest[k..];
      Regroup([prog] + a.consumed, a.skipped, a.rest[..k], a.rest[k..]);
    }
  }

  class GetoptT {
    const argv: array<CStr>
    var interleave: bool
    var ind: nat
    var place: CStr
    var skipStart: nat
    var skipEnd: nat

    /** The words as the skip range divides them. */
    ghost var prog: CStr
    ghost var args: Args

    ghost predicate InCall()
      reads this, argv
    {
      && argv[..] == Vector(prog, args)
      && skipStart == 1 + |args.consumed| && skipEnd == skipStart + |args.skipped|
      && skipEnd <= ind <= argv.Length
      && (!interleave ==> args.skipped == [])
    }

    /** Between two calls. */
    ghost predicate Valid()
      reads this, argv
    {
      InCall() && ind == skipEnd && place == args.place
    }

    /** ch_getopt_init: the words are copied; `interleave` is set by the caller before the first call. */
    constructor (words: seq<CStr>, interleave: bool)
      requires words != []
      ensures Valid() && fresh(argv) && argv[..] == words && this.interleave == interleave
      ensures prog == words[0] && args == Start(words[1..])
    {
      argv := new CStr[|words|](i requires 0 <= i < |words| => words[i]);
      this.interleave := interleave;
      ind, place, skipStart, skipEnd := 1, "", 1, 1;
      prog, args := words[0], Start(words[1..]);
      new;
      assert argv[..] == words;
    }

    /** permute: the words between skipEnd and ind go in front of the skipped ones. */
    method Permute()
      requires InCall()
      modifies this`skipStart, this`skipEnd, this`args, argv
      ensures Valid() && args == Consume(old(args), ind - old(skipEnd), place)
    {
      var len1, len2 := skipEnd - skipStart, ind - skipEnd;
      ghost var a := args;
      MovedAhead(prog, a, len2, place);
      if interleave {
        ExchangeBlocks(argv, skipStart, len1, len2, [prog] + a.consumed, a.skipped, a.rest[..len2], a.rest[len2..]);
      }
      skipStart := skipStart + len2;
      skipEnd := skipEnd + len2;
      args := Consume(a, len2, place);
    }

    /** Lines 199-203. */
    method SkipWords()
      requires Valid()
      modifies this`ind, this`skipEnd, this`args
      ensures Valid() && args == Skip(old(args), interleave)
    {
      if interleave {
        ghost var a := args;
        ind := FindOption(argv, ind, [prog] + a.consumed + a.skipped, a.rest);
        skipEnd := ind;
        SkippedVector(prog, a, true);
        args := Skip(a, true);
      }
    }

    /** Lines 210-243; the option word is argv[ind - 1]. */
    method LongOption(opts: seq<Opt>, w: CStr) returns (status: Status, optch: int, optarg: Option<CStr>)
      requires InCall() && ind == skipEnd + 1 && place == "" && IsLong(w) && args.rest[0] == w
      modifies this`ind, this`skipStart, this`skipEnd, this`args, argv
      ensures Answered(Getopt.LongOption(old(args), opts), status, optch, optarg)
    {
      optch, optarg := 0, None;
      var p: CStr := w[2..];
      var found := FindLongRow(opts, p);
      if found.None? {
        status := BadCh;
        return;
      }
      var len := |found.value.name.value|;
      optch := found.value.optch;
      if found.value.hasArg {
        if At(p, len) == '=' {
          optarg := Some(p[len + 1..]);
        } else if ind >= argv.Length {
          status := BadArg;
          return;
        } else {
          optarg := Some(argv[ind]);
          assert argv[ind] == argv[..][ind] == args.rest[1];
          ind := ind + 1;
        }
      } else if At(p, len) == '=' {
        status := BadArg;
        return;
      }
      Permute();
      status := Success;
    }

    /** The call did what `next` says. */
    ghost predicate Answered(next: Outcome, status: Status, optch: int, optarg: Option<CStr>)
      reads this, argv
    {
      match next
      case Got(report, a) => status == Success && report == Report(optch, optarg) && Valid() && args == a
      case Done(a) => status == Eof && Finished(a)
      case Bad(why) => status == why
    }

    /** The state after the last call. */
    ghost predicate Finished(a: Args)
      reads this, argv
    {
      argv[..] == Vector(prog, a) && ind == 1 + |a.consumed|
    }

    /** Lines 260-285 on the letters p. */
    method ShortOption(opts: seq<Opt>, p: CStr) returns (status: Status, optch: int, optarg: Option<CStr>)
      requires InCall() && p != ""
      modifies this`ind, this`place, this`skipStart, this`skipEnd, this`args, argv
      ensures Answered(Getopt.ShortOption(old(args), opts, p, old(ind - skipEnd)), status, optch, optarg)
    {
      optch, optarg := 0, None;
      var found := FindShortRow(opts, p[0]);
      if found.None? {
        status := BadCh;
        return;
      }
      optch := Ord(p[0]);
      var q: CStr := p[1..];
      if found.value.hasArg {
        if q != "" {
          optarg := Some(q);
        } else if ind >= argv.Length {
          status := BadArg;
          return;
        } else {
          optarg := Some(argv[ind]);
          assert argv[ind] == argv[..][ind] == args.rest[ind - skipEnd];
          ind := ind + 1;
        }
        place := "";
      } else {
        place := q;
      }
      Permute();
      status := Success;
    }

    /** Lines 204-285 for the word at ind, where no letters are left over. */
    method NextWord(opts: seq<Opt>) returns (status: Status, optch: int, optarg: Option<CStr>)
      requires Valid() && place == "" && Skip(args, interleave) == args
      modifies this`ind, this`place, this`skipStart, this`skipEnd, this`args, argv
      ensures Answered(Getopt.Next(old(args), opts, interleave), status, optch, optarg)
    {
      optch, optarg := 0, None;
      assert ind < argv.Length ==> argv[ind] == argv[..][ind] == args.rest[0];
      if ind >= argv.Length || At(argv[ind], 0) != '-' {
        ind := skipStart;
        status := Eof;
        return;
      }
      var w := argv[ind];
      var p: CStr := w[1..];
      ind := ind + 1;
      if At(p, 0) == '-' && |p| > 1 {
        status, optch, optarg := LongOption(opts, w);
      } else if At(p, 0) == '-' {
        assert w == "--";
        Permute();
        ind := skipStart;
        status := Eof;
      } else if p == "" {
        assert w == "-";
        status := BadCh;
      } else {
        status, optch, optarg := ShortOption(opts, p);
      }
    }

    /** ch_getopt_long. */
    method Next(opts: seq<Opt>) returns (status: Status, optch: int, optarg: Option<CStr>)
      requires Valid()
      modifies this`ind, this`place, this`skipStart, this`skipEnd, this`args, argv
      ensures Answered(Getopt.Next(old(args), opts, interleave), status, optch, optarg)
    {
      if place != "" {
        status, optch, optarg := ShortOption(opts, place);
      } else {
        SkipWords();
        SkipTwice(old(args), interleave);
        status, optch, optarg := NextWord(opts);
      }
    }

    /** Calls until one does not succeed. */
    method Calls(opts: seq<Opt>) returns (status: Status, reports: seq<Report>)
      requires Valid()
      modifies this`ind, this`place, this`skipStart, this`skipEnd, this`args, argv
      ensures var e := RunFrom(old(args), opts, interleave);
              status == e.status && reports == e.reports && (status == Eof ==> Finished(e.args))
    {
      ghost var e := RunFrom(args, opts, interleave);
      reports := [];
      status := Success;
      while status == Success
        invariant status == Success ==> Valid() && Remaining(e, reports, args, opts, interleave)
        invariant status != Success ==> status == e.status && reports == e.reports
        invariant status == Eof ==> Finished(e.args)
        decreases status == Success, |args.rest|, |args.place|
      {
        var optch, optarg;
        RemainingStep(e, reports, args, opts, interleave);
        status, optch, optarg := Next(opts);
        if status == Success {
          reports := reports + [Report(optch, optarg)];
        }
      }
    }

    /** A whole run from the start: after the name come the options with their arguments and then,
        from ind on, the other words, each in the order they had; the reports are those of the
        words read once. */
    method Run(opts: seq<Opt>, ghost words: seq<CStr>) returns (status: Status, reports: seq<Report>)
      requires Valid() && args == Start(words)
      modifies this`ind, this`place, this`skipStart, this`skipEnd, this`args, argv
      ensures var r := Partition(opts, words, interleave);
              && status == r.status && reports == r.reports
              && (status == Eof ==>
                    && argv[..] == [prog] + Select(words, r.used, true) + Select(words, r.used, false)
                    && ind == 1 + |Select(words, r.used, true)|
                    && multiset(argv[..]) == multiset([prog] + words))
    {
      RunIsPartition(opts, words, interleave);
      ghost var r, a := Partition(opts, words, interleave), RunFrom(args, opts, interleave).args;
      status, reports := Calls(opts);
      if status == Eof {
        WholeVector(prog, a, words, r.used);
      }
    }
  }

  lemma {:induction false} WholeVector(prog: CStr, a: Args, words: seq<CStr>, used: seq<bool>)
    requires |used| == |words| && a.consumed == Select(words, used, true)
    requires a.skipped + a.rest == Select(words, used, false)
    ensures Vector(prog, a) == [prog] + Select(words, used, true) + Select(words, used, false)
    ensures multiset(Vector(prog, a)) == multiset([prog] + words)
  {
    var x, y := Select(words, used, true), Select(words, used, false);
    assert Vector(prog, a) == [prog] + a.consumed + (a.skipped + a.rest);
    SelectPermutes(words, used);
    assert [prog] + x + y == [prog] + (x + y);
  }

  /** What is reported already, and the run from here on, make up the whole run. */
  ghost predicate Remaining(e: Ended, reports: seq<Report>, a: Args, opts: seq<Opt>, interleave: bool) {
    var todo := RunFrom(a, opts, interleave);
    e == Ended(reports + todo.reports, todo.status, todo.args)
  }

  lemma RemainingStep(e: Ended, reports: seq<Report>, a: Args, opts: seq<Opt>, interleave: bool)
    requires Remaining(e, reports, a, opts, interleave)
    ensures match Getopt.Next(a, opts, interleave)
            case Got(report, a') => Remaining(e, reports + [report], a', opts, interleave)
            case Done(a') => e == Ended(reports, Eof, a')
            case Bad(why) => e.status == why && e.reports == reports && why != Success && why != Eof
  {
    var next := Getopt.Next(a, opts, interleave);
    if next.Got? {
      var todo := RunFrom(next.args, opts, interleave);
      assert reports + ([next.report] + todo.reports) == reports + [next.report] + todo.reports;
    }
  }

  lemma SkipTwice(a: Args, interleave: bool)
    ensures Skip(Skip(a, interleave), interleave) == Skip(a, interleave)
  {
    SkipNone(Skip(a, interleave), interleave);
  }
}
