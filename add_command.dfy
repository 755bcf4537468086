/** The `/add <url> [quality] [channel]` command up to the point where it hands
    a request to yt-dlp (main.py:78-103): the arguments after the URL are read
    one by one, each as a quality first and as an allowed destination second;
    the first one that is neither ends the command. */
module AddCommand {
  import opened Wrappers
  import opened Decimal
  import opened Destinations
  import opened Quality

  /** `MAX_SIZE` when `MAX_FILESIZE` is not set: 2 GB. */
  const DefaultMaxSize: int := 2000000000

  /** `f"best[filesize<={MAX_SIZE}]/best"`: the best single file within the
      size limit, else the best there is. */
  function DefaultFormat(maxSize: int): string {
    "best[filesize<=" + IntToString(maxSize) + "]/best"
  }

  /** What the command hands to yt-dlp and to the upload. */
  datatype Request = Request(url: string, format: string, target: Destination)

  /** How the command ends. */
  datatype Outcome =
    | Usage                        // no arguments: the usage reply
    | Unrecognised(arg: string)    // the reply "Unrecognised arg: <arg>"
    | Raised(literal: string)      // `int()` in pick_channel raised ValueError
    | Download(request: Request)   // "Downloading…" and on to yt-dlp

  /** What one argument after the URL is taken for. */
  datatype Reading =
    | QualityArg(format: string)
    | ChannelArg(target: Destination)
    | UnknownArg
    | InvalidArg(literal: string)

  /** An argument the loop accepts and goes on after. */
  predicate Accepted(r: Reading) {
    r.QualityArg? || r.ChannelArg?
  }

  /** Reads one argument: `pick_quality` first (every table expression is
      non-empty, so `if q:` is `q is not None`), then `pick_channel`. */
  function Classify(allowed: seq<Destination>, arg: string): (r: Reading)
    ensures r.QualityArg? <==> PickQuality(arg).Some?
    ensures r.QualityArg? ==> r.format in QualityFmt.Values
    ensures r.QualityArg? ==> PickQuality(arg) == Some(r.format)
    ensures r.ChannelArg? <==>
      PickQuality(arg).None? && PickChannel(allowed, arg).Ok? && PickChannel(allowed, arg).value.Some?
    ensures r.ChannelArg? ==> r.target in allowed && Normalise(arg) == Ok(r.target)
    ensures r.UnknownArg? <==> PickQuality(arg).None? && PickChannel(allowed, arg) == Ok(None)
    ensures r.InvalidArg? ==> r.literal == arg
  {
    match PickQuality(arg)
    case Some(format) => QualityArg(format)
    case None =>
      match PickChannel(allowed, arg)
      case ValueError(literal) => InvalidArg(literal)
      case Ok(Some(d)) => ChannelArg(d)
      case Ok(None) => UnknownArg
  }

  /** How the command ends on an argument the loop does not accept. */
  function Failure(arg: string, r: Reading): Outcome
    requires !Accepted(r)
  {
    if r.InvalidArg? then Raised(r.literal) else Unrecognised(arg)
  }

  /** The target before any argument is read: the first allowed destination,
      else the chat the command came from. */
  function DefaultTarget(allowed: seq<Destination>, chatId: int): Destination {
    if |allowed| > 0 then allowed[0] else Id(chatId)
  }

  /** Where the loop over the arguments ends: with the chosen expression and
      target, or with the outcome of an argument it did not accept. */
  datatype Scan = Settled(qExpr: Option<string>, target: Destination) | Stopped(outcome: Outcome)

  /** The loop over the arguments after the URL, from `qExpr` and `target`. */
  function ScanArgs(allowed: seq<Destination>, args: seq<string>, qExpr: Option<string>, target: Destination): (r: Scan)
    ensures r.Stopped? ==> r.outcome.Unrecognised? || r.outcome.Raised?
    ensures r.Stopped? && r.outcome.Unrecognised? ==> r.outcome.arg in args
  {
    if args == [] then Settled(qExpr, target)
    else
      match Classify(allowed, args[0])
      case QualityArg(format) => ScanArgs(allowed, args[1..], Some(format), target)
      case ChannelArg(d) => ScanArgs(allowed, args[1..], qExpr, d)
      case UnknownArg => Stopped(Unrecognised(args[0]))
      case InvalidArg(literal) => Stopped(Raised(literal))
  }

  /** The whole command, as a value. */
  function Resolve(args: seq<string>, chatId: int, allowed: seq<Destination>, maxSize: int): (r: Outcome)
    ensures r.Usage? <==> args == []
    ensures r.Unrecognised? ==> r.arg in args[1..]
    ensures r.Download? ==> r.request.url == args[0]
  {
    if args == [] then Usage
    else
      match ScanArgs(allowed, args[1..], None, DefaultTarget(allowed, chatId))
      case Stopped(outcome) => outcome
      case Settled(qExpr, target) =>
        Download(Request(args[0], if qExpr.Some? then qExpr.value else DefaultFormat(maxSize), target))
  }

  /** `add`: the loop of main.py:88-98 over `ctx.args[1:]`, updating `q_expr`
      and `target` and returning early on an argument it cannot place. */
  method Add(args: seq<string>, chatId: int, allowed: seq<Destination>, maxSize: int) returns (o: Outcome)
    ensures o == Resolve(args, chatId, allowed, maxSize)
  {
    if |args| == 0 {
      return Usage;
    }
    var url := args[0];
    var qExpr: Option<string> := None;
    var target := if |allowed| > 0 then allowed[0] else Id(chatId);
    var i := 1;
    while i < |args|
      invariant 1 <= i <= |args|
      invariant ScanArgs(allowed, args[i..], qExpr, target)
             == ScanArgs(allowed, args[1..], None, DefaultTarget(allowed, chatId))
    {
      var arg := args[i];
      assert args[i..][0] == arg && args[i..][1..] == args[i + 1..];
      var q := PickQuality(arg);
      if q.Some? {
        assert Classify(allowed, arg) == QualityArg(q.value);
        qExpr := q;
      } else {
        var ch := PickChannel(allowed, arg);
        if ch.ValueError? {
          assert Classify(allowed, arg) == InvalidArg(ch.literal);
          return Raised(ch.literal);
        }
        if ch.value.None? {
          assert Classify(allowed, arg) == UnknownArg;
          return Unrecognised(arg);
        }
        assert Classify(allowed, arg) == ChannelArg(ch.value.value);
        target := ch.value.value;
      }
      i := i + 1;
    }
    assert args[i..] == [];
    var format := if qExpr.Some? then qExpr.value else DefaultFormat(maxSize);
    return Download(Request(url, format, target));
  }

  // ----- What the loop settles on -----

  /** The loop runs to the end exactly when it accepts every argument. */
  lemma {:induction false} ScanSettled(allowed: seq<Destination>, args: seq<string>, q: Option<string>, t: Destination)
    ensures ScanArgs(allowed, args, q, t).Settled? <==>
      forall j :: 0 <= j < |args| ==> Accepted(Classify(allowed, args[j]))
  {
    if args != [] {
      var r := Classify(allowed, args[0]);
      var q' := if r.QualityArg? then Some(r.format) else q;
      var t' := if r.ChannelArg? then r.target else t;
      ScanSettled(allowed, args[1..], q', t');
      assert forall j :: 1 <= j < |args| ==> args[j] == args[1..][j - 1];
    }
  }

  /** The loop stops at the first argument it does not accept, with that
      argument's outcome. */
  lemma {:induction false} ScanStops(allowed: seq<Destination>, args: seq<string>, q: Option<string>, t: Destination, j: nat)
    requires j < |args| && !Accepted(Classify(allowed, args[j]))
    requires forall i :: 0 <= i < j ==> Accepted(Classify(allowed, args[i]))
    ensures ScanArgs(allowed, args, q, t) == Stopped(Failure(args[j], Classify(allowed, args[j])))
  {
    if j > 0 {
      var r := Classify(allowed, args[0]);
      assert Accepted(r);
      var q' := if r.QualityArg? then Some(r.format) else q;
      var t' := if r.ChannelArg? then r.target else t;
      assert forall i :: 1 <= i <= j ==> args[1..][i - 1] == args[i];
      ScanStops(allowed, args[1..], q', t', j - 1);
    }
  }

  /** `j` is the last argument taken for a destination. */
  ghost predicate LastChannel(allowed: seq<Destination>, args: seq<string>, j: int) {
    && 0 <= j < |args|
    && Classify(allowed, args[j]).ChannelArg?
    && forall k :: j < k < |args| ==> !Classify(allowed, args[k]).ChannelArg?
  }

  /** `j` is the last argument taken for a quality. */
  ghost predicate LastQuality(allowed: seq<Destination>, args: seq<string>, j: int) {
    && 0 <= j < |args|
    && Classify(allowed, args[j]).QualityArg?
    && forall k :: j < k < |args| ==> !Classify(allowed, args[k]).QualityArg?
  }

  /** Once the loop runs to the end, the target is the last argument taken
      for a destination (the starting target when there is none), and the
      expression is the last argument taken for a quality (the starting one
      when there is none). */
  lemma {:induction false} ScanLastWins(allowed: seq<Destination>, args: seq<string>, q: Option<string>, t: Destination)
    requires ScanArgs(allowed, args, q, t).Settled?
    ensures (forall j :: 0 <= j < |args| ==> !Classify(allowed, args[j]).ChannelArg?) ==>
      ScanArgs(allowed, args, q, t).target == t
    ensures forall j :: LastChannel(allowed, args, j) ==>
      ScanArgs(allowed, args, q, t).target == Classify(allowed, args[j]).target
    ensures (forall j :: 0 <= j < |args| ==> !Classify(allowed, args[j]).QualityArg?) ==>
      ScanArgs(allowed, args, q, t).qExpr == q
    ensures forall j :: LastQuality(allowed, args, j) ==>
      ScanArgs(allowed, args, q, t).qExpr == Some(Classify(allowed, args[j]).format)
  {
    if args != [] {
      var r := Classify(allowed, args[0]);
      var q' := if r.QualityArg? then Some(r.format) else q;
      var t' := if r.ChannelArg? then r.target else t;
      var rest := args[1..];
      assert ScanArgs(allowed, args, q, t) == ScanArgs(allowed, rest, q', t');
      ScanLastWins(allowed, rest, q', t');
      assert forall k :: 1 <= k < |args| ==> args[k] == rest[k - 1];
      forall j | LastChannel(allowed, args, j)
        ensures ScanArgs(allowed, args, q, t).target == Classify(allowed, args[j]).target
      {
        if j > 0 {
          assert LastChannel(allowed, rest, j - 1);
        }
      }
      forall j | LastQuality(allowed, args, j)
        ensures ScanArgs(allowed, args, q, t).qExpr == Some(Classify(allowed, args[j]).format)
      {
        if j > 0 {
          assert LastQuality(allowed, rest, j - 1);
        }
      }
    }
  }

  /** The loop only ever moves the target to an allowed destination and the
      expression to a table expression. */
  lemma {:induction false} ScanStaysAllowed(allowed: seq<Destination>, args: seq<string>, q: Option<string>, t: Destination)
    requires ScanArgs(allowed, args, q, t).Settled?
    ensures ScanArgs(allowed, args, q, t).target == t || ScanArgs(allowed, args, q, t).target in allowed
    ensures ScanArgs(allowed, args, q, t).qExpr == q
      || (ScanArgs(allowed, args, q, t).qExpr.Some? && ScanArgs(allowed, args, q, t).qExpr.value in QualityFmt.Values)
  {
    if args != [] {
      var r := Classify(allowed, args[0]);
      var q' := if r.QualityArg? then Some(r.format) else q;
      var t' := if r.ChannelArg? then r.target else t;
      assert ScanArgs(allowed, args, q, t) == ScanArgs(allowed, args[1..], q', t');
      ScanStaysAllowed(allowed, args[1..], q', t');
    }
  }

  /** Reading `a + b` reads `a`, then goes on with `b` from where `a` left off. */
  lemma {:induction false} ScanAppend(allowed: seq<Destination>, a: seq<string>, b: seq<string>, q: Option<string>, t: Destination)
    ensures ScanArgs(allowed, a + b, q, t) ==
      match ScanArgs(allowed, a, q, t)
      case Stopped(o) => Stopped(o)
      case Settled(q', t') => ScanArgs(allowed, b, q', t')
  {
    if a == [] {
      assert a + b == b;
    } else {
      assert (a + b)[0] == a[0] && (a + b)[1..] == a[1..] + b;
      var r := Classify(allowed, a[0]);
      var q' := if r.QualityArg? then Some(r.format) else q;
      var t' := if r.ChannelArg? then r.target else t;
      ScanAppend(allowed, a[1..], b, q', t');
    }
  }

  // ----- The command as a whole -----

  /** No arguments give the usage reply; otherwise the command goes on to
      download exactly when every argument after the URL is a quality or an
      allowed destination. */
  lemma ResolveDownloads(args: seq<string>, chatId: int, allowed: seq<Destination>, maxSize: int)
    ensures args == [] ==> Resolve(args, chatId, allowed, maxSize) == Usage
    ensures Resolve(args, chatId, allowed, maxSize).Download? <==>
      |args| > 0 && forall j :: 1 <= j < |args| ==> Accepted(Classify(allowed, args[j]))
  {
    if args != [] {
      var scan := ScanArgs(allowed, args[1..], None, DefaultTarget(allowed, chatId));
      assert Resolve(args, chatId, allowed, maxSize).Download? <==> scan.Settled?;
      ScanSettled(allowed, args[1..], None, DefaultTarget(allowed, chatId));
      assert forall j :: 1 <= j < |args| ==> args[j] == args[1..][j - 1];
    }
  }

  /** The first argument after the URL that is neither a quality nor an
      allowed destination ends the command with its own outcome, whatever
      comes before or after it: nothing is downloaded. */
  lemma ResolveRejects(args: seq<string>, chatId: int, allowed: seq<Destination>, maxSize: int, j: nat)
    requires 1 <= j < |args| && !Accepted(Classify(allowed, args[j]))
    requires forall i :: 1 <= i < j ==> Accepted(Classify(allowed, args[i]))
    ensures Resolve(args, chatId, allowed, maxSize) == Failure(args[j], Classify(allowed, args[j]))
  {
    var rest := args[1..];
    assert forall i :: 0 <= i < j - 1 ==> rest[i] == args[i + 1];
    assert rest[j - 1] == args[j];
    ScanStops(allowed, rest, None, DefaultTarget(allowed, chatId), j - 1);
  }

  /** A download request keeps the URL, goes to an allowed destination (or to
      the invoking chat when nothing is allowed), and uses the last quality
      and the last destination given, with the size-capped expression and the
      default target when none is. */
  lemma ResolveRequest(args: seq<string>, chatId: int, allowed: seq<Destination>, maxSize: int)
    requires Resolve(args, chatId, allowed, maxSize).Download?
    ensures Resolve(args, chatId, allowed, maxSize).request.url == args[0]
    ensures Resolve(args, chatId, allowed, maxSize).request.target in allowed
      || (allowed == [] && Resolve(args, chatId, allowed, maxSize).request.target == Id(chatId))
    ensures Resolve(args, chatId, allowed, maxSize).request.format in QualityFmt.Values
      || Resolve(args, chatId, allowed, maxSize).request.format == DefaultFormat(maxSize)
    ensures (forall j :: 1 <= j < |args| ==> !Classify(allowed, args[j]).ChannelArg?) ==>
      Resolve(args, chatId, allowed, maxSize).request.target == DefaultTarget(allowed, chatId)
    ensures forall j :: 1 <= j && LastChannel(allowed, args, j) ==>
      Resolve(args, chatId, allowed, maxSize).request.target == Classify(allowed, args[j]).target
    ensures (forall j :: 1 <= j < |args| ==> !Classify(allowed, args[j]).QualityArg?) ==>
      Resolve(args, chatId, allowed, maxSize).request.format == DefaultFormat(maxSize)
    ensures forall j :: 1 <= j && LastQuality(allowed, args, j) ==>
      Resolve(args, chatId, allowed, maxSize).request.format == Classify(allowed, args[j]).format
  {
    assert args != [];
    var rest := args[1..];
    var t0 := DefaultTarget(allowed, chatId);
    assert ScanArgs(allowed, rest, None, t0).Settled?;
    ScanLastWins(allowed, rest, None, t0);
    ScanStaysAllowed(allowed, rest, None, t0);
    assert forall k :: 1 <= k < |args| ==> args[k] == rest[k - 1];
    forall j | 1 <= j && LastChannel(allowed, args, j) ensures LastChannel(allowed, rest, j - 1) {
    }
    forall j | 1 <= j && LastQuality(allowed, args, j) ensures LastQuality(allowed, rest, j - 1) {
    }
  }

  /** A quality and a destination may come in either order: swapping two
      neighbouring arguments, one read as a quality and the other as a
      destination, does not change the outcome. */
  lemma ResolveSwap(args: seq<string>, chatId: int, allowed: seq<Destination>, maxSize: int, j: nat)
    requires 1 <= j && j + 1 < |args|
    requires Classify(allowed, args[j]).QualityArg? && Classify(allowed, args[j + 1]).ChannelArg?
    ensures Resolve(args[j := args[j + 1]][j + 1 := args[j]], chatId, allowed, maxSize)
         == Resolve(args, chatId, allowed, maxSize)
  {
    var swapped := args[j := args[j + 1]][j + 1 := args[j]];
    var x, y := args[j], args[j + 1];
    var a, c := args[1..j], args[j + 2..];
    assert args[1..] == a + ([x, y] + c);
    assert swapped[1..] == a + ([y, x] + c);
    assert swapped[0] == args[0];
    var t0 := DefaultTarget(allowed, chatId);
    ScanAppend(allowed, a, [x, y] + c, None, t0);
    ScanAppend(allowed, a, [y, x] + c, None, t0);
    match ScanArgs(allowed, a, None, t0)
    case Stopped(_) =>
    case Settled(q, t) =>
      ScanAppend(allowed, [x, y], c, q, t);
      ScanAppend(allowed, [y, x], c, q, t);
      assert [x, y][1..] == [y] && [y, x][1..] == [x];
      assert [y][1..] == [] && [x][1..] == [];
  }

  // ----- The size-capped default -----

  /** The default expression is none of the table's, so a request shows
      whether a quality was given. */
  lemma DefaultFormatNotTier(maxSize: int)
    ensures DefaultFormat(maxSize) !in QualityFmt.Values
  {
    var d := DefaultFormat(maxSize);
    assert d[|d| - 1] == 't';
    TableKeys();
    forall v | v in QualityFmt.Values ensures v != d {
      var k :| k in QualityFmt && QualityFmt[k] == v;
      var t :| Label(t) == k;
      assert v == Selector(t);
      match t
      case P360 => assert v[|v| - 1] == ']';
      case P480 => assert v[|v| - 1] == ']';
      case P720 => assert v[|v| - 1] == ']';
      case P1080 => assert v[|v| - 1] == ']';
      case K2 => assert v[|v| - 1] == ']';
      case K4 => assert v[|v| - 1] == ']';
    }
  }

  /** The default expression names the size limit itself: different limits
      give different expressions. */
  lemma DefaultFormatInjective(m: int, n: int)
    requires DefaultFormat(m) == DefaultFormat(n)
    ensures m == n
  {
    var prefix := "best[filesize<=";
    var sm, sn := IntToString(m), IntToString(n);
    assert DefaultFormat(m)[|prefix|..|prefix| + |sm|] == sm;
    assert DefaultFormat(n)[|prefix|..|prefix| + |sn|] == sn;
    assert |sm| == |sn|;
    IntToStringInjective(m, n);
  }
}
