/** What a command line says, by the way it is written: options and operands that are written out as words are
    read back by a run of ch_getopt_long, and every error is that of the word it stands for. */
module GetoptForms {
  import opened Common
  import opened CStrings
  import opened Getopt

  // ------------------------------------------------------------------ the table

  /** The letter c is that of row o: the first such row, and before the row that ends the table. */
  predicate ShortRow(opts: seq<Opt>, c: char, o: Opt) {
    exists i :: 0 <= i < |opts| && opts[i] == o && o.optch == Ord(c) && Ord(c) != 0 &&
      forall j :: 0 <= j < i ==> opts[j].optch != 0 && opts[j].optch != Ord(c)
  }

  /** The text is the name of the row, or begins with it and '='. */
  predicate Names(p: CStr, o: Opt) {
    o.name.Some? && (p == o.name.value || o.name.value + "=" <= p)
  }

  predicate LongRow(opts: seq<Opt>, p: CStr, o: Opt) {
    exists i :: 0 <= i < |opts| && opts[i] == o && o.optch != 0 && Names(p, o) &&
      forall j :: 0 <= j < i ==> opts[j].optch != 0 && !Names(p, opts[j])
  }

  lemma NamesIsMatch(p: CStr, o: Opt)
    ensures Names(p, o) <==> NameMatches(p, o)
  {
    if o.name.Some? && o.name.value <= p && |p| > |o.name.value| && p[|o.name.value|] == '=' {
      assert p[..|o.name.value| + 1] == o.name.value + "=";
    }
  }

  lemma {:induction false} ShortFrom(opts: seq<Opt>, c: char, i: nat, k: nat)
    requires i <= k < |opts| && opts[k].optch == Ord(c) && Ord(c) != 0
    requires forall j :: i <= j < k ==> opts[j].optch != 0 && opts[j].optch != Ord(c)
    ensures FindShort(opts, c, i) == Some(opts[k])
    decreases k - i
  {
    if i < k {
      ShortFrom(opts, c, i + 1, k);
    }
  }

  lemma {:induction false} LongFrom(opts: seq<Opt>, p: CStr, i: nat, k: nat)
    requires i <= k < |opts| && opts[k].optch != 0 && NameMatches(p, opts[k])
    requires forall j :: i <= j < k ==> opts[j].optch != 0 && !NameMatches(p, opts[j])
    ensures FindLong(opts, p, i) == Some(opts[k])
    decreases k - i
  {
    if i < k {
      LongFrom(opts, p, i + 1, k);
    }
  }

  lemma {:induction false} ShortIndex(opts: seq<Opt>, c: char, i: nat) returns (k: nat)
    requires i <= |opts| && FindShort(opts, c, i).Some?
    ensures i <= k < |opts| && opts[k] == FindShort(opts, c, i).value && opts[k].optch == Ord(c) && Ord(c) != 0
    ensures forall j :: i <= j < k ==> opts[j].optch != 0 && opts[j].optch != Ord(c)
    decreases |opts| - i
  {
    if opts[i].optch == Ord(c) {
      k := i;
    } else {
      k := ShortIndex(opts, c, i + 1);
    }
  }

  lemma {:induction false} LongIndex(opts: seq<Opt>, p: CStr, i: nat) returns (k: nat)
    requires i <= |opts| && FindLong(opts, p, i).Some?
    ensures i <= k < |opts| && opts[k] == FindLong(opts, p, i).value && opts[k].optch != 0 && NameMatches(p, opts[k])
    ensures forall j :: i <= j < k ==> opts[j].optch != 0 && !NameMatches(p, opts[j])
    decreases |opts| - i
  {
    if NameMatches(p, opts[i]) {
      k := i;
    } else {
      k := LongIndex(opts, p, i + 1);
    }
  }

  /** The search for a letter finds its row if it has one, and nothing if it has none. */
  lemma ShortExactly(opts: seq<Opt>, c: char, o: Opt)
    ensures FindShort(opts, c, 0) == Some(o) <==> ShortRow(opts, c, o)
  {
    if ShortRow(opts, c, o) {
      var k :| 0 <= k < |opts| && opts[k] == o && o.optch == Ord(c) && Ord(c) != 0 &&
        forall j :: 0 <= j < k ==> opts[j].optch != 0 && opts[j].optch != Ord(c);
      ShortFrom(opts, c, 0, k);
    }
    if FindShort(opts, c, 0) == Some(o) {
      var k := ShortIndex(opts, c, 0);
    }
  }

  lemma LongExactly(opts: seq<Opt>, p: CStr, o: Opt)
    ensures FindLong(opts, p, 0) == Some(o) <==> LongRow(opts, p, o)
  {
    forall q: Opt
      ensures Names(p, q) <==> NameMatches(p, q)
    {
      NamesIsMatch(p, q);
    }
    if LongRow(opts, p, o) {
      var k :| 0 <= k < |opts| && opts[k] == o && o.optch != 0 && Names(p, o) &&
        forall j :: 0 <= j < k ==> opts[j].optch != 0 && !Names(p, opts[j]);
      LongFrom(opts, p, 0, k);
    }
    if FindLong(opts, p, 0) == Some(o) {
      var k := LongIndex(opts, p, 0);
    }
  }

  // -------------------------------------------------------------- what is written

  /** How a group of letters ends: with the last flag, or with an option and its argument, in the word or as the next. */
  datatype Tail = NoArg | Inline(c: char, o: Opt, arg: CStr) | Next(c: char, o: Opt, arg: CStr)

  datatype Flag = Flag(c: char, o: Opt)

  datatype Piece =
    | Operand(w: CStr)
    | Long(o: Opt)
    | LongInline(o: Opt, arg: CStr)
    | LongNext(o: Opt, arg: CStr)
    | Letters(flags: seq<Flag>, tail: Tail)

  function FlagText(flags: seq<Flag>): (r: seq<char>)
    ensures |r| == |flags| && forall i :: 0 <= i < |r| ==> r[i] == flags[i].c
  {
    seq(|flags|, i requires 0 <= i < |flags| => flags[i].c)
  }

  function TailText(t: Tail): seq<char> {
    match t
    case NoArg => []
    case Inline(c, _, arg) => [c] + arg
    case Next(c, _, _) => [c]
  }

  function LettersText(flags: seq<Flag>, tail: Tail): seq<char> {
    FlagText(flags) + TailText(tail)
  }

  predicate TailOk(opts: seq<Opt>, t: Tail) {
    match t
    case NoArg => true
    case Inline(c, o, arg) => c != '\0' && ShortRow(opts, c, o) && o.hasArg && arg != ""
    case Next(c, o, _) => c != '\0' && ShortRow(opts, c, o) && o.hasArg
  }

  predicate FlagsOk(opts: seq<Opt>, flags: seq<Flag>) {
    forall i :: 0 <= i < |flags| ==> flags[i].c != '\0' && ShortRow(opts, flags[i].c, flags[i].o) && !flags[i].o.hasArg
  }

  /** The piece can be written: operands, which are read on only when interleaving, are no options; names and
      letters are those of their rows. */
  predicate PieceOk(opts: seq<Opt>, x: Piece, interleave: bool) {
    match x
    case Operand(w) => interleave && (w == "" || w[0] != '-')
    case Long(o) => o.name.Some? && o.name.value != "" && LongRow(opts, o.name.value, o) && !o.hasArg
    case LongInline(o, arg) => o.name.Some? && LongRow(opts, o.name.value + "=" + arg, o) && o.hasArg
    case LongNext(o, _) => o.name.Some? && o.name.value != "" && LongRow(opts, o.name.value, o) && o.hasArg
    case Letters(flags, tail) =>
      && FlagsOk(opts, flags) && TailOk(opts, tail) && LettersText(flags, tail) != [] && LettersText(flags, tail)[0] != '-'
  }

  lemma LettersTextOk(opts: seq<Opt>, flags: seq<Flag>, tail: Tail)
    requires FlagsOk(opts, flags) && TailOk(opts, tail)
    ensures '\0' !in LettersText(flags, tail)
  {
    forall i | 0 <= i < |LettersText(flags, tail)|
      ensures LettersText(flags, tail)[i] != '\0'
    {
      if i >= |flags| && tail.Inline? && i > |flags| {
        assert LettersText(flags, tail)[i] == tail.arg[i - |flags| - 1] && tail.arg[i - |flags| - 1] in tail.arg;
      }
    }
  }

  /** The words of a piece. */
  function Written(opts: seq<Opt>, x: Piece, interleave: bool): seq<CStr>
    requires PieceOk(opts, x, interleave)
  {
    match x
    case Operand(w) => [w]
    case Long(o) => ["--" + o.name.value]
    case LongInline(o, arg) => ["--" + o.name.value + "=" + arg]
    case LongNext(o, arg) => ["--" + o.name.value, arg]
    case Letters(flags, tail) =>
      LettersTextOk(opts, flags, tail);
      ["-" + LettersText(flags, tail)] + if tail.Next? then [tail.arg] else []
  }

  function FlagReports(flags: seq<Flag>): (r: seq<Report>)
    ensures |r| == |flags| && forall i :: 0 <= i < |r| ==> r[i] == Report(flags[i].o.optch, None)
  {
    seq(|flags|, i requires 0 <= i < |flags| => Report(flags[i].o.optch, None))
  }

  /** What a piece says. */
  function Said(x: Piece): seq<Report> {
    match x
    case Operand(_) => []
    case Long(o) => [Report(o.optch, None)]
    case LongInline(o, arg) => [Report(o.optch, Some(arg))]
    case LongNext(o, arg) => [Report(o.optch, Some(arg))]
    case Letters(flags, tail) =>
      FlagReports(flags) + if tail.NoArg? then [] else [Report(tail.o.optch, Some(tail.arg))]
  }

  // ------------------------------------------------------------ it is read back

  lemma {:induction false} FlagRead(opts: seq<Opt>, p: CStr, next: Option<CStr>, o: Opt)
    requires p != "" && FindShort(opts, p[0], 0) == Some(o) && !o.hasArg
    ensures var r := ReadLetters(opts, p[1..], next);
            ReadLetters(opts, p, next) == r.(reports := [Report(o.optch, None)] + r.reports)
  {
  }

  /** Flags in front of other letters. */
  lemma {:induction false} FlagsRead(opts: seq<Opt>, flags: seq<Flag>, q: CStr, p: CStr, next: Option<CStr>)
    requires FlagsOk(opts, flags) && p == FlagText(flags) + q
    ensures var r := ReadLetters(opts, q, next);
            ReadLetters(opts, p, next) == r.(reports := FlagReports(flags) + r.reports)
    decreases |flags|
  {
    var r := ReadLetters(opts, q, next);
    if flags == [] {
      assert p == q && FlagReports(flags) + r.reports == r.reports;
    } else {
      var f, rest := flags[0], flags[1..];
      ShortExactly(opts, f.c, f.o);
      assert p[0] == f.c && p[1..] == FlagText(rest) + q;
      FlagRead(opts, p, next, f.o);
      FlagsRead(opts, rest, q, p[1..], next);
      assert FlagReports(flags) + r.reports == [Report(f.o.optch, None)] + (FlagReports(rest) + r.reports);
    }
  }

  lemma TailTextOk(opts: seq<Opt>, tail: Tail)
    requires TailOk(opts, tail)
    ensures '\0' !in TailText(tail)
  {
  }

  lemma {:induction false} TailRead(opts: seq<Opt>, tail: Tail, q: CStr, next: Option<CStr>)
    requires TailOk(opts, tail) && q == TailText(tail) && (tail.Next? ==> next == Some(tail.arg))
    ensures ReadLetters(opts, q, next) ==
            Reading(if tail.NoArg? then [] else [Report(tail.o.optch, Some(tail.arg))], if tail.Next? then 1 else 0, Success)
  {
    if !tail.NoArg? {
      ShortExactly(opts, tail.c, tail.o);
      assert tail.Inline? ==> q[1..] == tail.arg;
    }
  }

  lemma {:induction false} LettersRead(opts: seq<Opt>, flags: seq<Flag>, tail: Tail, p: CStr, next: Option<CStr>)
    requires FlagsOk(opts, flags) && TailOk(opts, tail) && p == LettersText(flags, tail)
    requires tail.Next? ==> next == Some(tail.arg)
    ensures ReadLetters(opts, p, next) ==
            Reading(Said(Letters(flags, tail)), if tail.Next? then 1 else 0, Success)
  {
    TailTextOk(opts, tail);
    var q: CStr := TailText(tail);
    FlagsRead(opts, flags, q, p, next);
    TailRead(opts, tail, q, next);
  }

  lemma {:induction false} LongRead(opts: seq<Opt>, x: Piece, interleave: bool, next: Option<CStr>)
    requires PieceOk(opts, x, interleave) && (x.Long? || x.LongInline? || x.LongNext?)
    requires x.LongNext? ==> next == Some(x.arg)
    ensures IsLong(Written(opts, x, interleave)[0])
    ensures ReadLong(opts, Written(opts, x, interleave)[0][2..], next) ==
            Reading(Said(x), if x.LongNext? then 1 else 0, Success)
  {
    var w := Written(opts, x, interleave)[0];
    var p: CStr := if x.LongInline? then x.o.name.value + "=" + x.arg else x.o.name.value;
    assert w == "--" + p && w[2..] == p;
    LongExactly(opts, p, x.o);
    if x.LongInline? {
      assert p[|x.o.name.value| + 1..] == x.arg;
    }
  }

  /** One piece in front of other words. */
  function Before(words: nat, used: bool, reports: seq<Report>, r: Parting): Parting {
    Parting(Copies(used, words) + r.used, reports + r.reports, r.status)
  }

  lemma {:induction false} OperandRead(opts: seq<Opt>, w: CStr, words: seq<CStr>)
    requires w == "" || w[0] != '-'
    ensures Partition(opts, [w] + words, true) == Before(1, false, [], Partition(opts, words, true))
  {
    assert ([w] + words)[1..] == words;
    var r := Partition(opts, words, true);
    assert Copies(false, 1) + r.used == [false] + r.used && [] + r.reports == r.reports;
  }

  lemma {:induction false} WordRead(opts: seq<Opt>, x: Piece, interleave: bool, words: seq<CStr>)
    requires PieceOk(opts, x, interleave) && !x.Operand?
    ensures IsOption(Written(opts, x, interleave)[0]) && Written(opts, x, interleave)[0] != "--"
    ensures ReadWord(opts, Written(opts, x, interleave)[0], Head(Written(opts, x, interleave) + words, 1)) ==
            Reading(Said(x), |Written(opts, x, interleave)| - 1, Success)
  {
    var ws := Written(opts, x, interleave);
    var next := Head(ws + words, 1);
    if x.Letters? {
      LettersTextOk(opts, x.flags, x.tail);
      var p: CStr := LettersText(x.flags, x.tail);
      assert ws[0] == "-" + p && ws[0][1..] == p && ws[0][1] == p[0];
      LettersRead(opts, x.flags, x.tail, p, next);
    } else {
      LongRead(opts, x, interleave, next);
    }
  }

  lemma {:induction false} PieceRead(opts: seq<Opt>, x: Piece, interleave: bool, words: seq<CStr>)
    requires PieceOk(opts, x, interleave)
    ensures Partition(opts, Written(opts, x, interleave) + words, interleave) ==
            Before(|Written(opts, x, interleave)|, !x.Operand?, Said(x), Partition(opts, words, interleave))
  {
    if x.Operand? {
      OperandRead(opts, x.w, words);
    } else {
      WordRead(opts, x, interleave, words);
      WordParted(opts, Written(opts, x, interleave), words, interleave, Said(x));
    }
  }

  /** A word that is read with the words that it uses. */
  lemma {:induction false} WordParted(opts: seq<Opt>, ws: seq<CStr>, words: seq<CStr>, interleave: bool, said: seq<Report>)
    requires ws != [] && IsOption(ws[0]) && ws[0] != "--"
    requires ReadWord(opts, ws[0], Head(ws + words, 1)) == Reading(said, |ws| - 1, Success)
    ensures Partition(opts, ws + words, interleave) == Before(|ws|, true, said, Partition(opts, words, interleave))
  {
    assert (ws + words)[|ws|..] == words && (ws + words)[0] == ws[0];
  }

  predicate AllOk(opts: seq<Opt>, xs: seq<Piece>, interleave: bool) {
    forall i :: 0 <= i < |xs| ==> PieceOk(opts, xs[i], interleave)
  }

  function AllWritten(opts: seq<Opt>, xs: seq<Piece>, interleave: bool): seq<CStr>
    requires AllOk(opts, xs, interleave)
  {
    if xs == [] then [] else Written(opts, xs[0], interleave) + AllWritten(opts, xs[1..], interleave)
  }

  function AllSaid(xs: seq<Piece>): seq<Report> {
    if xs == [] then [] else Said(xs[0]) + AllSaid(xs[1..])
  }

  function Marks(opts: seq<Opt>, xs: seq<Piece>, interleave: bool): (r: seq<bool>)
    requires AllOk(opts, xs, interleave)
    ensures |r| == |AllWritten(opts, xs, interleave)|
  {
    if xs == [] then []
    else Copies(!xs[0].Operand?, |Written(opts, xs[0], interleave)|) + Marks(opts, xs[1..], interleave)
  }

  lemma Assoc<T>(a: seq<T>, b: seq<T>, c: seq<T>)
    ensures a + b + c == a + (b + c)
  {
  }

  lemma {:induction false} AllRead(opts: seq<Opt>, xs: seq<Piece>, interleave: bool, words: seq<CStr>)
    requires AllOk(opts, xs, interleave)
    ensures var r := Partition(opts, words, interleave);
            Partition(opts, AllWritten(opts, xs, interleave) + words, interleave) ==
            Parting(Marks(opts, xs, interleave) + r.used, AllSaid(xs) + r.reports, r.status)
    decreases |xs|
  {
    var r := Partition(opts, words, interleave);
    if xs == [] {
      assert [] + words == words && [] + r.used == r.used && [] + r.reports == r.reports;
    } else {
      var x, rest := xs[0], xs[1..];
      AllRead(opts, rest, interleave, words);
      PieceRead(opts, x, interleave, AllWritten(opts, rest, interleave) + words);
      Assoc(Written(opts, x, interleave), AllWritten(opts, rest, interleave), words);
      Assoc(Copies(!x.Operand?, |Written(opts, x, interleave)|), Marks(opts, rest, interleave), r.used);
      Assoc(Said(x), AllSaid(rest), r.reports);
    }
  }

  // ------------------------------------------------------------- how the words end

  /** Nothing more; the bare "--", or when not interleaving an operand, with anything behind it; or a word that
      is an error, with anything behind it unless it is an argument that is missing. */
  datatype Ending =
    | Nothing
    | DashDash(behind: seq<CStr>)
    | FirstOperand(w: CStr, behind: seq<CStr>)
    | BareDash(behind: seq<CStr>)
    | BadLetter(flags: seq<Flag>, c: char, more: CStr, behind: seq<CStr>)
    | LastLetter(flags: seq<Flag>, c: char, o: Opt)
    | BadName(p: CStr, behind: seq<CStr>)
    | LastName(o: Opt)
    | SpareArg(o: Opt, arg: CStr, behind: seq<CStr>)

  /** The letters do not make the word a long option. */
  predicate Starts(flags: seq<Flag>, c: char) {
    c != '\0' && if flags == [] then c != '-' else flags[0].c != '-'
  }

  ghost predicate EndingOk(opts: seq<Opt>, e: Ending, interleave: bool) {
    match e
    case FirstOperand(w, _) => !interleave && (w == "" || w[0] != '-')
    case BadLetter(flags, c, _, _) => FlagsOk(opts, flags) && Starts(flags, c) && forall o :: !ShortRow(opts, c, o)
    case LastLetter(flags, c, o) => FlagsOk(opts, flags) && Starts(flags, c) && ShortRow(opts, c, o) && o.hasArg
    case BadName(p, _) => p != "" && forall o :: !LongRow(opts, p, o)
    case LastName(o) => o.name.Some? && o.name.value != "" && LongRow(opts, o.name.value, o) && o.hasArg
    case SpareArg(o, arg, _) => o.name.Some? && LongRow(opts, o.name.value + "=" + arg, o) && !o.hasArg
    case _ => true
  }

  lemma FlagTextOk(opts: seq<Opt>, flags: seq<Flag>)
    requires FlagsOk(opts, flags)
    ensures '\0' !in FlagText(flags)
  {
  }

  ghost function EndWords(opts: seq<Opt>, e: Ending, interleave: bool): seq<CStr>
    requires EndingOk(opts, e, interleave)
  {
    match e
    case Nothing => []
    case DashDash(behind) => ["--"] + behind
    case FirstOperand(w, behind) => [w] + behind
    case BareDash(behind) => ["-"] + behind
    case BadLetter(flags, c, more, behind) =>
      FlagTextOk(opts, flags);
      ["-" + (FlagText(flags) + ([c] + more))] + behind
    case LastLetter(flags, c, _) =>
      FlagTextOk(opts, flags);
      ["-" + (FlagText(flags) + [c])]
    case BadName(p, behind) => ["--" + p] + behind
    case LastName(o) => ["--" + o.name.value]
    case SpareArg(o, arg, behind) => ["--" + (o.name.value + "=" + arg)] + behind
  }

  /** What is reported of the last word, and the status of the last call. */
  function EndSaid(e: Ending): seq<Report> {
    match e
    case BadLetter(flags, _, _, _) => FlagReports(flags)
    case LastLetter(flags, _, _) => FlagReports(flags)
    case _ => []
  }

  function EndStatus(e: Ending): Status {
    match e
    case Nothing => Eof
    case DashDash(_) => Eof
    case FirstOperand(_, _) => Eof
    case BareDash(_) => BadCh
    case BadLetter(_, _, _, _) => BadCh
    case LastLetter(_, _, _) => BadArg
    case BadName(_, _) => BadCh
    case LastName(_) => BadArg
    case SpareArg(_, _, _) => BadArg
  }

  /** The words that are left for the caller. */
  function EndLeft(e: Ending): seq<CStr> {
    match e
    case DashDash(behind) => behind
    case FirstOperand(w, behind) => [w] + behind
    case _ => []
  }

  lemma {:induction false} NoShort(opts: seq<Opt>, c: char)
    requires forall o :: !ShortRow(opts, c, o)
    ensures FindShort(opts, c, 0) == None
  {
    if FindShort(opts, c, 0).Some? {
      ShortExactly(opts, c, FindShort(opts, c, 0).value);
    }
  }

  lemma {:induction false} NoLong(opts: seq<Opt>, p: CStr)
    requires forall o :: !LongRow(opts, p, o)
    ensures FindLong(opts, p, 0) == None
  {
    if FindLong(opts, p, 0).Some? {
      LongExactly(opts, p, FindLong(opts, p, 0).value);
    }
  }

  /** A word that is an error: what it reports and the error. */
  lemma {:induction false} ErrorRead(opts: seq<Opt>, e: Ending, interleave: bool)
    requires EndingOk(opts, e, interleave) && EndStatus(e) != Eof
    ensures var ws := EndWords(opts, e, interleave);
            && ws != [] && IsOption(ws[0]) && ws[0] != "--"
            && var r := ReadWord(opts, ws[0], Head(ws, 1)); r.reports == EndSaid(e) && r.status == EndStatus(e)
  {
    var ws := EndWords(opts, e, interleave);
    match e
    case BareDash(_) =>
    case BadLetter(flags, c, more, _) =>
      FlagTextOk(opts, flags);
      LettersError(opts, flags, [c] + more, ws[0], Head(ws, 1));
      NoShort(opts, c);
    case LastLetter(flags, c, o) =>
      FlagTextOk(opts, flags);
      LettersError(opts, flags, [c], ws[0], Head(ws, 1));
      ShortExactly(opts, c, o);
    case BadName(p, _) =>
      assert ws[0][2..] == p;
      NoLong(opts, p);
    case LastName(o) =>
      assert ws[0][2..] == o.name.value;
      LongExactly(opts, o.name.value, o);
    case SpareArg(o, arg, _) =>
      assert ws[0][2..] == o.name.value + "=" + arg;
      LongExactly(opts, o.name.value + "=" + arg, o);
  }

  /** A word of flags and other letters. */
  lemma {:induction false} LettersError(opts: seq<Opt>, flags: seq<Flag>, q: CStr, w: CStr, next: Option<CStr>)
    requires FlagsOk(opts, flags) && q != "" && Starts(flags, q[0]) && w == "-" + (FlagText(flags) + q)
    ensures IsOption(w) && w != "--" && w != "-"
    ensures var r := ReadLetters(opts, q, next);
            ReadWord(opts, w, next) == r.(reports := FlagReports(flags) + r.reports)
  {
    FlagTextOk(opts, flags);
    var p: CStr := FlagText(flags) + q;
    assert w[1..] == p && w[1] == p[0] == if flags == [] then q[0] else flags[0].c;
    FlagsRead(opts, flags, q, p, next);
  }

  lemma {:induction false} EndRead(opts: seq<Opt>, e: Ending, interleave: bool)
    requires EndingOk(opts, e, interleave)
    ensures var ws, r := EndWords(opts, e, interleave), Partition(opts, EndWords(opts, e, interleave), interleave);
            && r.reports == EndSaid(e) && r.status == EndStatus(e)
            && (r.status == Eof ==> |r.used| == |ws| && Select(ws, r.used, false) == EndLeft(e))
  {
    var ws := EndWords(opts, e, interleave);
    var r := Partition(opts, ws, interleave);
    if EndStatus(e) != Eof {
      ErrorRead(opts, e, interleave);
    } else if e.DashDash? {
      assert ws[1..] == e.behind && r.used[1..] == Copies(false, |e.behind|);
      SelectCopies(e.behind, false, false);
    } else if e.FirstOperand? {
      SelectCopies(ws, false, false);
    }
  }

  // ----------------------------------------------------------------- main results

  /** The operands among the pieces. */
  function Operands(xs: seq<Piece>): seq<CStr> {
    if xs == [] then [] else (if xs[0].Operand? then [xs[0].w] else []) + Operands(xs[1..])
  }

  lemma {:induction false} OperandsLeft(opts: seq<Opt>, xs: seq<Piece>, interleave: bool)
    requires AllOk(opts, xs, interleave)
    ensures Select(AllWritten(opts, xs, interleave), Marks(opts, xs, interleave), false) == Operands(xs)
    decreases |xs|
  {
    if xs != [] {
      var x, rest := xs[0], xs[1..];
      var ws := Written(opts, x, interleave);
      OperandsLeft(opts, rest, interleave);
      SelectConcat(ws, AllWritten(opts, rest, interleave), Copies(!x.Operand?, |ws|), Marks(opts, rest, interleave), false);
      SelectCopies(ws, !x.Operand?, false);
    }
  }

  /** Whatever is written out as words is read back by the calls: the reports are what the pieces say, the last call
      ends as the ending says, and when it is the end the operands are left, in their order. */
  lemma {:induction false} ReadBack(opts: seq<Opt>, xs: seq<Piece>, e: Ending, interleave: bool)
    requires AllOk(opts, xs, interleave) && EndingOk(opts, e, interleave)
    ensures var r := RunFrom(Start(AllWritten(opts, xs, interleave) + EndWords(opts, e, interleave)), opts, interleave);
            && r.reports == AllSaid(xs) + EndSaid(e) && r.status == EndStatus(e)
            && (r.status == Eof ==> r.args.skipped + r.args.rest == Operands(xs) + EndLeft(e))
  {
    var ws, vs := AllWritten(opts, xs, interleave), EndWords(opts, e, interleave);
    var q := Partition(opts, vs, interleave);
    RunIsPartition(opts, ws + vs, interleave);
    AllRead(opts, xs, interleave, vs);
    EndRead(opts, e, interleave);
    if q.status == Eof {
      OperandsLeft(opts, xs, interleave);
      SelectConcat(ws, vs, Marks(opts, xs, interleave), q.used, false);
    }
  }

  // -------------------------------------------- every command line is written so

  /** What follows the flags of a word: an end, a letter without a row, or an option whose argument is missing. */
  datatype Rest = TailIs(tail: Tail) | Unknown(c: char, more: CStr) | Missing(c: char, o: Opt)

  ghost predicate RestOk(opts: seq<Opt>, flags: seq<Flag>, rest: Rest, p: CStr, next: Option<CStr>) {
    FlagsOk(opts, flags) &&
    match rest
    case TailIs(t) => TailOk(opts, t) && p == LettersText(flags, t) && (t.Next? ==> next == Some(t.arg))
    case Unknown(c, more) => p == FlagText(flags) + ([c] + more) && c != '\0' && forall o :: !ShortRow(opts, c, o)
    case Missing(c, o) => p == FlagText(flags) + [c] && c != '\0' && ShortRow(opts, c, o) && o.hasArg && next.None?
  }

  lemma {:induction false} RestCons(opts: seq<Opt>, f: Flag, flags: seq<Flag>, rest: Rest, p: CStr, next: Option<CStr>)
    requires p != "" && p[0] == f.c && ShortRow(opts, f.c, f.o) && !f.o.hasArg && RestOk(opts, flags, rest, p[1..], next)
    ensures RestOk(opts, [f] + flags, rest, p, next)
  {
    assert FlagsOk(opts, [f] + flags) by {
      assert p[0] in p;
    }
    match rest
    case TailIs(t) => FlagCons(f, flags, TailText(t), p);
    case Unknown(c, more) => FlagCons(f, flags, [c] + more, p);
    case Missing(c, _) => FlagCons(f, flags, [c], p);
  }

  lemma FlagCons(f: Flag, flags: seq<Flag>, q: seq<char>, p: seq<char>)
    requires p != [] && p[0] == f.c && p[1..] == FlagText(flags) + q
    ensures p == FlagText([f] + flags) + q
  {
    assert FlagText([f] + flags) == [f.c] + FlagText(flags);
    assert p == [p[0]] + p[1..];
  }

  lemma {:induction false} LettersSplit(opts: seq<Opt>, p: CStr, next: Option<CStr>) returns (flags: seq<Flag>, rest: Rest)
    ensures RestOk(opts, flags, rest, p, next)
    decreases |p|
  {
    flags := [];
    if p == "" {
      rest := TailIs(NoArg);
      return;
    }
    var c := p[0];
    assert p == [c] + p[1..] && c in p;
    var found := FindShort(opts, c, 0);
    if found.None? {
      forall o
        ensures !ShortRow(opts, c, o)
      {
        ShortExactly(opts, c, o);
      }
      rest := Unknown(c, p[1..]);
      return;
    }
    var o := found.value;
    ShortExactly(opts, c, o);
    if !o.hasArg {
      var more;
      more, rest := LettersSplit(opts, p[1..], next);
      RestCons(opts, Flag(c, o), more, rest, p, next);
      flags := [Flag(c, o)] + more;
    } else if |p| > 1 {
      rest := TailIs(Inline(c, o, p[1..]));
    } else if next.Some? {
      rest := TailIs(Next(c, o, next.value));
    } else {
      rest := Missing(c, o);
    }
  }

  /** The first words are a piece, or all of them an ending. */
  datatype Part = First(x: Piece) | Last(e: Ending)

  ghost predicate PartOk(opts: seq<Opt>, words: seq<CStr>, interleave: bool, part: Part) {
    match part
    case First(x) => PieceOk(opts, x, interleave) && Written(opts, x, interleave) != [] && Written(opts, x, interleave) <= words
    case Last(e) => EndingOk(opts, e, interleave) && words == EndWords(opts, e, interleave)
  }

  lemma {:induction false} LettersPart(opts: seq<Opt>, words: seq<CStr>, interleave: bool) returns (part: Part)
    requires words != [] && |words[0]| > 1 && words[0][0] == '-' && words[0][1] != '-'
    ensures PartOk(opts, words, interleave, part)
  {
    var w := words[0];
    var p: CStr := w[1..];
    var flags, rest := LettersSplit(opts, p, Head(words, 1));
    assert w == "-" + p && words == [w] + words[1..];
    assert flags != [] ==> p[0] == flags[0].c;
    match rest
    case TailIs(t) => part := First(Letters(flags, t));
    case Unknown(c, more) => part := Last(BadLetter(flags, c, more, words[1..]));
    case Missing(c, o) => part := Last(LastLetter(flags, c, o));
  }

  lemma {:induction false} LongPart(opts: seq<Opt>, words: seq<CStr>, interleave: bool) returns (part: Part)
    requires words != [] && IsLong(words[0])
    ensures PartOk(opts, words, interleave, part)
  {
    var w := words[0];
    var p: CStr := w[2..];
    assert w == "--" + p && words == [w] + words[1..];
    var found := FindLong(opts, p, 0);
    if found.None? {
      forall o
        ensures !LongRow(opts, p, o)
      {
        LongExactly(opts, p, o);
      }
      return Last(BadName(p, words[1..]));
    }
    var o := found.value;
    LongExactly(opts, p, o);
    var name := o.name.value;
    if |p| > |name| {
      var arg: CStr := p[|name| + 1..];
      assert p == name + "=" + arg && "--" + p == "--" + name + "=" + arg;
      part := if o.hasArg then First(LongInline(o, arg)) else Last(SpareArg(o, arg, words[1..]));
    } else {
      assert p == name;
      part := if !o.hasArg then First(Long(o)) else if |words| > 1 then First(LongNext(o, words[1])) else Last(LastName(o));
    }
  }

  lemma {:induction false} FirstPart(opts: seq<Opt>, words: seq<CStr>, interleave: bool) returns (part: Part)
    ensures PartOk(opts, words, interleave, part)
  {
    if words == [] {
      return Last(Nothing);
    }
    var w := words[0];
    assert words == [w] + words[1..];
    if w == "" || w[0] != '-' {
      part := if interleave then First(Operand(w)) else Last(FirstOperand(w, words[1..]));
    } else if w == "-" {
      part := Last(BareDash(words[1..]));
    } else if w == "--" {
      part := Last(DashDash(words[1..]));
    } else if w[1] == '-' {
      part := LongPart(opts, words, interleave);
    } else {
      part := LettersPart(opts, words, interleave);
    }
  }

  lemma {:induction false} AllCons(opts: seq<Opt>, x: Piece, xs: seq<Piece>, interleave: bool)
    requires PieceOk(opts, x, interleave) && AllOk(opts, xs, interleave)
    ensures AllOk(opts, [x] + xs, interleave)
    ensures AllWritten(opts, [x] + xs, interleave) == Written(opts, x, interleave) + AllWritten(opts, xs, interleave)
  {
    assert ([x] + xs)[1..] == xs;
  }

  /** Every sequence of words is some pieces and an ending: what `ReadBack` says is all there is to say. */
  lemma {:induction false} EveryLine(opts: seq<Opt>, words: seq<CStr>, interleave: bool) returns (xs: seq<Piece>, e: Ending)
    ensures AllOk(opts, xs, interleave) && EndingOk(opts, e, interleave)
    ensures words == AllWritten(opts, xs, interleave) + EndWords(opts, e, interleave)
    decreases |words|
  {
    var part := FirstPart(opts, words, interleave);
    if part.Last? {
      xs, e := [], part.e;
      assert words == [] + EndWords(opts, e, interleave);
    } else {
      var ws := Written(opts, part.x, interleave);
      var more;
      more, e := EveryLine(opts, words[|ws|..], interleave);
      xs := [part.x] + more;
      AllCons(opts, part.x, more, interleave);
      Assoc(ws, AllWritten(opts, more, interleave), EndWords(opts, e, interleave));
      assert words == ws + words[|ws|..];
    }
  }
}
