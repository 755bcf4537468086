/** Whole `/add` commands and what they come to, for the usage the bot
    documents (main.py:5-7) and the edge cases of its argument reading. */
module Scenarios {
  import opened Wrappers
  import opened Strings
  import opened Decimal
  import opened Destinations
  import opened Quality
  import opened AddCommand

  /** `/add <url> 480p` with no allow-list: the 480p expression, uploaded to
      the chat the command came from. */
  lemma QualityToInvokingChat(url: string, chatId: int, maxSize: int)
    ensures Resolve([url, "480p"], chatId, [], maxSize)
         == Download(Request(url, QualityFmt["480p"], Id(chatId)))
  {
    assert Lower("480p") == Stem(P480) + Ps(1);
    PickQualityTier("480p", P480);
    assert Classify([], "480p") == QualityArg(QualityFmt["480p"]);
    assert [url, "480p"][1..] == ["480p"];
    assert ["480p"][1..] == [];
    assert ScanArgs([], ["480p"], None, Id(chatId)) == Settled(Some(QualityFmt["480p"]), Id(chatId));
  }

  /** `/add <url> @news` with `@news` allowed: the size-capped default
      expression, uploaded to `@news`. */
  lemma HandleWithDefaultFormat(url: string, chatId: int)
    ensures Resolve([url, "@news"], chatId, [Handle("@news")], DefaultMaxSize)
         == Download(Request(url, DefaultFormat(DefaultMaxSize), Handle("@news")))
  {
    assert Lower("@news")[0] == '@';
    PickQualityFirstChar("@news");
    NormaliseHandle("@news");
    assert [url, "@news"][1..] == ["@news"];
    assert ["@news"][1..] == [];
  }

  /** A negative channel id, written as the user would, names that channel. */
  lemma NegativeIdIsChannel(allowed: seq<Destination>, id: int)
    requires id < 0 && Id(id) in allowed
    ensures Classify(allowed, IntToString(id)) == ChannelArg(Id(id))
  {
    var token := IntToString(id);
    assert Lower(token)[0] == '-';
    PickQualityFirstChar(token);
    NormaliseRender(Id(id));
  }

  /** `720p` reads as the 720p quality whatever the allow-list. */
  lemma QualityArg720(allowed: seq<Destination>)
    ensures Classify(allowed, "720p") == QualityArg(QualityFmt["720p"])
  {
    PickQuality720();
  }

  /** `/add <url> 720p <id>` with a negative channel id allowed: the 720p
      expression and that channel. */
  lemma QualityThenChannel(url: string, chatId: int, id: int, maxSize: int)
    requires id < 0
    ensures Resolve([url, "720p", IntToString(id)], chatId, [Id(id)], maxSize)
         == Download(Request(url, QualityFmt["720p"], Id(id)))
  {
    var token := IntToString(id);
    NegativeIdIsChannel([Id(id)], id);
    QualityArg720([Id(id)]);
    var args := [url, "720p", token];
    var format := QualityFmt["720p"];
    assert args[1..] == ["720p", token] && args[1..][1..] == [token] && [token][1..] == [];
    assert ScanArgs([Id(id)], [], Some(format), Id(id)) == Settled(Some(format), Id(id));
    assert ScanArgs([Id(id)], [token], Some(format), Id(id)) == Settled(Some(format), Id(id));
    assert ScanArgs([Id(id)], ["720p", token], None, Id(id)) == Settled(Some(format), Id(id));
  }

  /** `/add <url> <id> 720p`: the same request, the order of the two does not
      matter. */
  lemma ChannelThenQuality(url: string, chatId: int, id: int, maxSize: int)
    requires id < 0
    ensures Resolve([url, IntToString(id), "720p"], chatId, [Id(id)], maxSize)
         == Download(Request(url, QualityFmt["720p"], Id(id)))
  {
    var token := IntToString(id);
    var args := [url, "720p", token];
    QualityThenChannel(url, chatId, id, maxSize);
    NegativeIdIsChannel([Id(id)], id);
    QualityArg720([Id(id)]);
    ResolveSwap(args, chatId, [Id(id)], maxSize, 1);
    assert args[1 := token][2 := "720p"] == [url, token, "720p"];
  }

  /** `ALLOWED_CHANNELS=--5`: `int()` raises while the allow-list is built,
      so the bot does not start. */
  lemma DoubleDashStopsStartUp()
    ensures ParseAllowed("--5") == ValueError("--5")
  {
    assert ',' !in "--5";
    ParseAllowedSingle("--5");
    assert !IsSpace('-') && !IsSpace('5');
    StripBlank("--5");
    StripSpec("--5");
    assert Strip("--5") == "--5";
    assert LStripChar("--5", '-') == "5";
    NormaliseNumeric("--5");
  }

  /** `/add foo bar` where `@bar` is not allowed: the reply
      "Unrecognised arg: bar" and no download. */
  lemma UnknownArgument(chatId: int, allowed: seq<Destination>, maxSize: int)
    requires Handle("@bar") !in allowed
    ensures Resolve(["foo", "bar"], chatId, allowed, maxSize) == Unrecognised("bar")
  {
    assert Lower("bar")[0] == 'b';
    PickQualityFirstChar("bar");
    assert !Numeric("bar");
    NormaliseHandle("bar");
    assert "@" + "bar" == "@bar";
    assert ["foo", "bar"][1..] == ["bar"];
  }

  /** A token that is a quality is never a destination, even when `@` and the
      token is allowed: `720` picks the 720p expression and the first allowed
      destination stays the target. */
  lemma QualityBeforeChannel(url: string, chatId: int, maxSize: int)
    ensures Resolve([url, "720"], chatId, [Handle("@x"), Handle("@720")], maxSize)
         == Download(Request(url, QualityFmt["720p"], Handle("@x")))
  {
    PickQuality720();
    assert [url, "720"][1..] == ["720"];
    assert ["720"][1..] == [];
  }

  /** A numeric token is compared as an integer: `007` selects the allowed
      id 7. */
  lemma LeadingZerosSelectId(url: string, chatId: int, maxSize: int)
    ensures Resolve([url, "007"], chatId, [Id(7)], maxSize)
         == Download(Request(url, DefaultFormat(maxSize), Id(7)))
  {
    assert Lower("007")[0] == '0';
    PickQualityFirstChar("007");
    NormaliseLeadingZero("07");
    NormaliseLeadingZero("7");
    assert "0" + "07" == "007" && "0" + "7" == "07";
    assert Normalise("7") == Ok(Id(7)) by {
      assert LStripChar("7", '-') == "7";
      assert DigitsValue("7") == 7;
    }
    assert [url, "007"][1..] == ["007"];
    assert ["007"][1..] == [];
  }

  /** Two leading dashes pass the digit test but make `int()` raise: the
      command ends with the `ValueError`, and nothing is downloaded. */
  lemma DoubleDashRaises(url: string, chatId: int, allowed: seq<Destination>, maxSize: int)
    ensures Resolve([url, "--5"], chatId, allowed, maxSize) == Raised("--5")
  {
    assert Lower("--5")[0] == '-';
    PickQualityFirstChar("--5");
    assert LStripChar("--5", '-') == "5" by {
      assert "--5"[1..] == "-5" && "-5"[1..] == "5";
    }
    NormaliseNumeric("--5");
    assert [url, "--5"][1..] == ["--5"];
  }

  /** With an empty allow-list no token is a destination: a command either
      uploads to the invoking chat or is refused. */
  lemma EmptyAllowListTargetsChat(args: seq<string>, chatId: int, maxSize: int)
    requires Resolve(args, chatId, [], maxSize).Download?
    ensures Resolve(args, chatId, [], maxSize).request.target == Id(chatId)
  {
    ResolveRequest(args, chatId, [], maxSize);
  }
}
