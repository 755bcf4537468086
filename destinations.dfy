/** Upload destinations: the `ALLOWED_CHANNELS` allow-list the bot builds at
    start-up (main.py:26-36) and the lookup `pick_channel` (main.py:57-63).
    Both turn a token into a destination the same way, modelled once here as
    `Normalise`. */
module Destinations {
  import opened Wrappers
  import opened Strings
  import opened Decimal

  /** A Telegram chat: a numeric id (Python `int`) or an `@` handle (Python `str`). */
  datatype Destination = Id(id: int) | Handle(name: string)

  /** What the allow-list holds: ids, and handles that begin with `@`. */
  predicate WellFormed(d: Destination) {
    d.Handle? ==> StartsWith(d.name, '@')
  }

  /** True when `int()` would be applied to `token`: `token.lstrip("-").isdigit()`. */
  predicate Numeric(token: string) {
    IsDigits(LStripChar(token, '-'))
  }

  /** A token as the bot reads it: a numeric token becomes `int(token)` (which
      raises `ValueError` on two or more leading dashes); any other token
      becomes a handle, with `@` put in front when it lacks one. */
  function Normalise(token: string): (r: Result<Destination>)
    ensures r.Ok? ==> WellFormed(r.value)
    ensures r.ValueError? ==> r.literal == token
  {
    if Numeric(token) then
      match IntLiteral(token)
      case Some(n) => Ok(Id(n))
      case None => ValueError(token)
    else if StartsWith(token, '@') then Ok(Handle(token))
    else Ok(Handle("@" + token))
  }

  /** A numeric token is read by `int()`: it is an id unless it has two
      leading dashes, where `int()` raises. */
  lemma NormaliseNumeric(token: string)
    ensures Normalise(token).ValueError? <==>
      Numeric(token) && |token| >= 2 && token[0] == '-' && token[1] == '-'
    ensures Normalise(token).Ok? && Normalise(token).value.Id? <==>
      Numeric(token) && Normalise(token).Ok?
    ensures Normalise(token).Ok? && Normalise(token).value.Id? ==>
      Normalise(token).value.id == (if token[0] == '-' then -1 else 1) * DigitsValue(LStripChar(token, '-'))
  {
    if Numeric(token) {
    }
  }

  /** A token that is not numeric is a handle: unchanged when it starts with
      `@`, else with `@` put in front. */
  lemma NormaliseHandle(token: string)
    ensures StartsWith(token, '@') ==> Normalise(token) == Ok(Handle(token))
    ensures !Numeric(token) && !StartsWith(token, '@') ==> Normalise(token) == Ok(Handle("@" + token))
  {
    if StartsWith(token, '@') {
      assert LStripChar(token, '-') == token;
    }
  }

  /** How a destination is written out: `str(target)` in Python. */
  function Render(d: Destination): string {
    match d
    case Id(n) => IntToString(n)
    case Handle(name) => name
  }

  /** Normalising undoes rendering: every well-formed destination, written out,
      reads back as itself. */
  lemma NormaliseRender(d: Destination)
    requires WellFormed(d)
    ensures Normalise(Render(d)) == Ok(d)
  {
    match d
    case Id(n) =>
      IntRoundTrip(n);
    case Handle(name) =>
      assert LStripChar(name, '-') == name;
  }

  /** Leading zeros of a numeric token are ignored: `"007"` is the id `7` and
      `"-007"` the id `-7`. */
  lemma NormaliseLeadingZero(digits: string)
    requires IsDigits(digits)
    ensures Normalise("0" + digits) == Normalise(digits)
    ensures Normalise("-0" + digits) == Normalise("-" + digits)
  {
    LeadingZero(digits);
    assert LStripChar("0" + digits, '-') == "0" + digits;
    assert LStripChar(digits, '-') == digits;
    assert ("-0" + digits)[1..] == "0" + digits;
    assert ("-" + digits)[1..] == digits;
    assert LStripChar("-0" + digits, '-') == "0" + digits by {
      assert LStripChar("-0" + digits, '-') == LStripChar("0" + digits, '-');
    }
    assert LStripChar("-" + digits, '-') == digits by {
      assert LStripChar("-" + digits, '-') == LStripChar(digits, '-');
    }
  }

  /** `pick_channel`: the destination a token names, when the allow-list holds
      it, else `None`; a token `int()` rejects raises `ValueError`. */
  function PickChannel(allowed: seq<Destination>, arg: string): (r: Result<Option<Destination>>)
    ensures r.Ok? && r.value.Some? ==> r.value.value in allowed
    ensures r.ValueError? <==> Normalise(arg).ValueError?
    ensures r.Ok? ==> (r.value.Some? <==> Normalise(arg).value in allowed)
    ensures r.Ok? && r.value.Some? ==> Normalise(arg) == Ok(r.value.value)
  {
    match Normalise(arg)
    case ValueError(literal) => ValueError(literal)
    case Ok(d) => if d in allowed then Ok(Some(d)) else Ok(None)
  }

  /** One comma-separated piece of `ALLOWED_CHANNELS`: blank pieces give no
      entry, any other piece the normalised form of its stripped text. */
  function ParseSegment(segment: string): (r: Result<Option<Destination>>)
    ensures r == Ok(None) <==> Strip(segment) == []
    ensures r.ValueError? <==> Strip(segment) != [] && Normalise(Strip(segment)).ValueError?
    ensures r.Ok? && r.value.Some? ==>
      WellFormed(r.value.value) && Normalise(Strip(segment)) == Ok(r.value.value)
  {
    var part := Strip(segment);
    if part == [] then Ok(None)
    else
      match Normalise(part)
      case ValueError(literal) => ValueError(literal)
      case Ok(d) => Ok(Some(d))
  }

  /** Puts `front` before the entries of a parse, or keeps its error. */
  function Prepend(front: seq<Destination>, rest: Result<seq<Destination>>): Result<seq<Destination>> {
    match rest
    case Ok(entries) => Ok(front + entries)
    case ValueError(literal) => ValueError(literal)
  }

  lemma PrependNothing(rest: Result<seq<Destination>>)
    ensures Prepend([], rest) == rest
  {
    if rest.Ok? {
      assert [] + rest.value == rest.value;
    }
  }

  lemma PrependTwice(front: seq<Destination>, more: seq<Destination>, rest: Result<seq<Destination>>)
    ensures Prepend(front, Prepend(more, rest)) == Prepend(front + more, rest)
  {
    if rest.Ok? {
      assert front + (more + rest.value) == (front + more) + rest.value;
    }
  }

  /** The allow-list made of already-read pieces, in order: blank pieces give
      nothing, and the first piece `int()` rejected aborts the whole parse. */
  function Collect(pieces: seq<Result<Option<Destination>>>): (r: Result<seq<Destination>>)
    ensures r.Ok? ==> |r.value| <= |pieces|
  {
    if pieces == [] then Ok([])
    else
      match pieces[0]
      case ValueError(literal) => ValueError(literal)
      case Ok(None) => Collect(pieces[1..])
      case Ok(Some(d)) => Prepend([d], Collect(pieces[1..]))
  }

  /** Each comma-separated piece, read by `ParseSegment`. */
  function ReadSegments(segments: seq<string>): (pieces: seq<Result<Option<Destination>>>)
    ensures |pieces| == |segments|
    ensures forall k :: 0 <= k < |segments| ==> pieces[k] == ParseSegment(segments[k])
  {
    seq(|segments|, k requires 0 <= k < |segments| => ParseSegment(segments[k]))
  }

  lemma ReadSegmentsAppend(p: seq<string>, q: seq<string>)
    ensures ReadSegments(p + q) == ReadSegments(p) + ReadSegments(q)
  {
    var l, r := ReadSegments(p + q), ReadSegments(p) + ReadSegments(q);
    assert |l| == |r|;
    forall k | 0 <= k < |l| ensures l[k] == r[k] {
      if k < |p| {
        assert (p + q)[k] == p[k];
      } else {
        assert (p + q)[k] == q[k - |p|];
      }
    }
  }

  /** The allow-list the bot builds from the `ALLOWED_CHANNELS` value. */
  function ParseAllowed(config: string): (r: Result<seq<Destination>>)
    ensures r.Ok? ==> |r.value| <= |Split(config, ',')|
  {
    Collect(ReadSegments(Split(config, ',')))
  }

  /** The start-up loop of main.py: split on commas, strip, skip blanks, append
      the normalised piece; `int()` failing on a piece stops the bot. */
  method BuildAllowed(config: string) returns (r: Result<seq<Destination>>)
    ensures r == ParseAllowed(config)
  {
    var parts := Split(config, ',');
    ghost var pieces := ReadSegments(parts);
    var allowed: seq<Destination> := [];
    var i := 0;
    assert pieces[i..] == pieces;
    PrependNothing(Collect(pieces));
    while i < |parts|
      invariant 0 <= i <= |parts|
      invariant Collect(pieces) == Prepend(allowed, Collect(pieces[i..]))
    {
      ghost var rest := Collect(pieces[i + 1..]);
      assert pieces[i..][0] == pieces[i] == ParseSegment(parts[i]);
      assert pieces[i..][1..] == pieces[i + 1..];
      var part := Strip(parts[i]);
      if part != [] {
        var d := Normalise(part);
        if d.ValueError? {
          return ValueError(part);
        }
        PrependTwice(allowed, [d.value], rest);
        allowed := allowed + [d.value];
      }
      i := i + 1;
    }
    assert pieces[i..] == [];
    assert allowed + [] == allowed;
    return Ok(allowed);
  }

  /** Every entry collected comes from some piece that read as that entry. */
  lemma {:induction false} CollectFrom(pieces: seq<Result<Option<Destination>>>, d: Destination)
    requires Collect(pieces).Ok? && d in Collect(pieces).value
    ensures exists k :: 0 <= k < |pieces| && pieces[k] == Ok(Some(d))
  {
    assert pieces != [];
    var rest := Collect(pieces[1..]);
    if pieces[0] != Ok(Some(d)) {
      assert rest.Ok? && d in rest.value;
      CollectFrom(pieces[1..], d);
      var k :| 0 <= k < |pieces[1..]| && pieces[1..][k] == Ok(Some(d));
      assert pieces[k + 1] == Ok(Some(d));
    }
  }

  /** Collecting succeeds exactly when no piece is an error. */
  lemma {:induction false} CollectOk(pieces: seq<Result<Option<Destination>>>)
    ensures Collect(pieces).Ok? <==> forall k :: 0 <= k < |pieces| ==> pieces[k].Ok?
  {
    if pieces != [] {
      CollectOk(pieces[1..]);
      assert forall k :: 1 <= k < |pieces| ==> pieces[k] == pieces[1..][k - 1];
    }
  }

  /** Every entry a piece reads as ends up in a successful collection. */
  lemma {:induction false} CollectContains(pieces: seq<Result<Option<Destination>>>, k: nat)
    requires Collect(pieces).Ok?
    requires k < |pieces| && pieces[k].Ok? && pieces[k].value.Some?
    ensures pieces[k].value.value in Collect(pieces).value
  {
    if k > 0 {
      assert pieces[1..][k - 1] == pieces[k];
      CollectContains(pieces[1..], k - 1);
    }
  }

  /** Collecting two runs of pieces one after the other keeps their entries
      in order; the first error wins. */
  lemma {:induction false} CollectAppend(p: seq<Result<Option<Destination>>>, q: seq<Result<Option<Destination>>>)
    ensures Collect(p + q) ==
      match Collect(p)
      case ValueError(literal) => ValueError(literal)
      case Ok(entries) => Prepend(entries, Collect(q))
  {
    if p == [] {
      assert p + q == q;
      match Collect(q)
      case Ok(e) => assert [] + e == e;
      case ValueError(_) =>
    } else {
      assert (p + q)[0] == p[0];
      assert (p + q)[1..] == p[1..] + q;
      CollectAppend(p[1..], q);
      match Collect(p[1..])
      case ValueError(_) =>
      case Ok(e) =>
        match Collect(q)
        case ValueError(_) =>
        case Ok(f) =>
          match p[0]
          case ValueError(_) =>
          case Ok(None) =>
          case Ok(Some(d)) => assert [d] + (e + f) == ([d] + e) + f;
    }
  }

  /** The allow-list of `a,b` is that of `a` followed by that of `b`: the order
      of the configured entries is kept, and each piece is read on its own. */
  lemma ParseAllowedConcat(a: string, b: string)
    ensures ParseAllowed(a + "," + b) ==
      match ParseAllowed(a)
      case ValueError(literal) => ValueError(literal)
      case Ok(entries) => Prepend(entries, ParseAllowed(b))
  {
    var p, q := Split(a, ','), Split(b, ',');
    SplitConcat(a, b, ',');
    assert Split(a + "," + b, ',') == p + q by {
      assert a + "," + b == a + [','] + b;
    }
    ReadSegmentsAppend(p, q);
    CollectAppend(ReadSegments(p), ReadSegments(q));
  }

  /** A value without commas is one piece: blank gives the empty allow-list,
      anything else its one normalised entry. */
  lemma ParseAllowedSingle(s: string)
    requires ',' !in s
    ensures ParseAllowed(s) ==
      match ParseSegment(s)
      case ValueError(literal) => ValueError(literal)
      case Ok(None) => Ok([])
      case Ok(Some(d)) => Ok([d])
  {
    SplitFree(s, ',');
    var pieces := ReadSegments([s]);
    assert pieces == [ParseSegment(s)];
    assert pieces[1..] == [];
    assert Collect(pieces[1..]) == Ok([]);
    match ParseSegment(s)
    case Ok(Some(d)) => assert [d] + [] == [d];
    case Ok(None) =>
    case ValueError(_) =>
  }

  /** Every entry of the allow-list is an id or a handle beginning with `@`,
      and comes from one of the pieces of the value. */
  lemma ParseAllowedEntries(config: string, d: Destination)
    requires ParseAllowed(config).Ok? && d in ParseAllowed(config).value
    ensures WellFormed(d)
    ensures exists k :: 0 <= k < |Split(config, ',')| && ParseSegment(Split(config, ',')[k]) == Ok(Some(d))
  {
    var parts := Split(config, ',');
    CollectFrom(ReadSegments(parts), d);
  }

  /** The bot starts exactly when every piece of the value reads without an
      `int()` failure. */
  lemma ParseAllowedOk(config: string)
    ensures ParseAllowed(config).Ok? <==>
      forall k :: 0 <= k < |Split(config, ',')| ==> ParseSegment(Split(config, ',')[k]).Ok?
  {
    var parts := Split(config, ',');
    var pieces := ReadSegments(parts);
    assert ParseAllowed(config) == Collect(pieces);
    CollectOk(pieces);
    if Collect(pieces).Ok? {
      forall k | 0 <= k < |Split(config, ',')|
        ensures ParseSegment(Split(config, ',')[k]).Ok?
      {
        assert pieces[k].Ok?;
      }
    } else {
      var k :| 0 <= k < |pieces| && !pieces[k].Ok?;
      assert !ParseSegment(Split(config, ',')[k]).Ok?;
    }
  }

  /** The allow-list parser and `pick_channel` agree: each non-blank piece of
      `ALLOWED_CHANNELS`, given back as a command token once stripped, selects
      exactly the entry the parser made of it. */
  lemma ConfigAndLookupAgree(config: string, k: nat)
    requires ParseAllowed(config).Ok?
    requires k < |Split(config, ',')|
    requires Strip(Split(config, ',')[k]) != []
    ensures ParseSegment(Split(config, ',')[k]).Ok?
    ensures PickChannel(ParseAllowed(config).value, Strip(Split(config, ',')[k])) ==
      Ok(ParseSegment(Split(config, ',')[k]).value)
  {
    var parts := Split(config, ',');
    var pieces := ReadSegments(parts);
    CollectOk(pieces);
    assert pieces[k].Ok?;
    CollectContains(pieces, k);
  }
}
