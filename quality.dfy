/** The quality table `QUALITY_FMT` (main.py:40-47) and its lookup
    `pick_quality` (main.py:66-72). */
module Quality {
  import opened Wrappers
  import opened Strings

  /** `QUALITY_FMT`: quality label to yt-dlp format expression. */
  const QualityFmt: map<string, string> := map[
    "360p" := "bestvideo[height<=360]+bestaudio/best[height<=360]",
    "480p" := "bestvideo[height<=480]+bestaudio/best[height<=480]",
    "720p" := "bestvideo[height<=720]+bestaudio/best[height<=720]",
    "1080p" := "bestvideo[height<=1080]+bestaudio/best[height<=1080]",
    "2k" := "bestvideo[height<=1440]+bestaudio/best[height<=1440]",
    "4k" := "bestvideo[height<=2160]+bestaudio/best[height<=2160]"
  ]

  /** The six tiers the table offers. */
  datatype Tier = P360 | P480 | P720 | P1080 | K2 | K4

  /** The tier's key in `QUALITY_FMT`. */
  function Label(t: Tier): string {
    match t
    case P360 => "360p"
    case P480 => "480p"
    case P720 => "720p"
    case P1080 => "1080p"
    case K2 => "2k"
    case K4 => "4k"
  }

  /** The tier's name without any trailing `p`: what a user must type, up to
      case and trailing `p`s. */
  function Stem(t: Tier): string {
    match t
    case P360 => "360"
    case P480 => "480"
    case P720 => "720"
    case P1080 => "1080"
    case K2 => "2k"
    case K4 => "4k"
  }

  /** The format expression of a tier. */
  function Selector(t: Tier): string {
    QualityFmt[Label(t)]
  }

  /** The table holds exactly the six tiers. */
  lemma TableKeys()
    ensures forall t :: Label(t) in QualityFmt
    ensures forall k :: k in QualityFmt ==> exists t :: Label(t) == k
  {
    forall k | k in QualityFmt ensures exists t :: Label(t) == k {
      if k == "360p" { assert Label(P360) == k; }
      else if k == "480p" { assert Label(P480) == k; }
      else if k == "720p" { assert Label(P720) == k; }
      else if k == "1080p" { assert Label(P1080) == k; }
      else if k == "2k" { assert Label(K2) == k; }
      else { assert Label(K4) == k; }
    }
  }

  /** Different tiers have different expressions. */
  lemma SelectorInjective(t: Tier, u: Tier)
    requires Selector(t) == Selector(u)
    ensures t == u
  {
  }

  /** `n` letters `p`. */
  function Ps(n: nat): (s: string)
    ensures |s| == n && forall i :: 0 <= i < n ==> s[i] == 'p'
  {
    seq(n, _ => 'p')
  }

  /** The lookup key of a token: lowered, all trailing `p`s dropped. */
  function Key(arg: string): string {
    RStripChar(Lower(arg), 'p')
  }

  /** The two lookups of `pick_quality`: the key as it is, then with `p` put
      back. */
  function Lookup(key: string): Option<string> {
    if key in QualityFmt then Some(QualityFmt[key])
    else if key + "p" in QualityFmt then Some(QualityFmt[key + "p"])
    else None
  }

  /** `pick_quality`: `None`, or one of the six expressions of the table. */
  function PickQuality(arg: string): (r: Option<string>)
    ensures r.Some? ==> r.value in QualityFmt.Values
  {
    Lookup(Key(arg))
  }

  /** A token spells a tier when, once lowered, it is the tier's stem followed
      by any number of `p`s. */
  ghost predicate Spells(arg: string, t: Tier) {
    exists n: nat {:trigger Ps(n)} :: Lower(arg) == Stem(t) + Ps(n)
  }

  /** Dropping trailing `p`s after a stem gives the stem back. */
  lemma {:induction false} RStripPs(s: string, n: nat)
    requires s == [] || s[|s| - 1] != 'p'
    ensures RStripChar(s + Ps(n), 'p') == s
  {
    if n > 0 {
      assert s + Ps(n) == (s + Ps(n - 1)) + ['p'];
      RStripCharAppend(s + Ps(n - 1), 'p');
      RStripPs(s, n - 1);
    } else {
      assert s + Ps(0) == s;
    }
  }

  /** Every stem finds its tier's expression. */
  lemma LookupStem(t: Tier)
    ensures Lookup(Stem(t)) == Some(Selector(t))
  {
    match t
    case P360 => assert Stem(t) + "p" == Label(t);
    case P480 => assert Stem(t) + "p" == Label(t);
    case P720 => assert Stem(t) + "p" == Label(t);
    case P1080 => assert Stem(t) + "p" == Label(t);
    case K2 =>
    case K4 =>
  }

  /** A label is its stem followed by `p`, or else it ends in `k`. */
  lemma LabelEnds(t: Tier)
    ensures Label(t) == Stem(t) + "p" || Label(t)[|Label(t)| - 1] == 'k'
  {
    match t
    case P360 => assert Stem(t) + "p" == Label(t);
    case P480 => assert Stem(t) + "p" == Label(t);
    case P720 => assert Stem(t) + "p" == Label(t);
    case P1080 => assert Stem(t) + "p" == Label(t);
    case K2 =>
    case K4 =>
  }

  /** A key without trailing `p` finds a tier's expression only when it is
      that tier's stem. */
  lemma LookupOnlyStem(key: string, t: Tier)
    requires key == [] || key[|key| - 1] != 'p'
    requires Lookup(key) == Some(Selector(t))
    ensures key == Stem(t)
  {
    TableKeys();
    if key in QualityFmt {
      var u :| Label(u) == key;
      assert u == K2 || u == K4;
      SelectorInjective(t, u);
    } else {
      var u :| Label(u) == key + "p";
      SelectorInjective(t, u);
      assert Label(t) == key + "p";
      assert Label(t)[|Label(t)| - 1] == 'p';
      LabelEnds(t);
      assert key == (key + "p")[..|key|];
      assert Stem(t) == (Stem(t) + "p")[..|Stem(t)|];
    }
  }

  /** `pick_quality` selects a tier's expression exactly when the token spells
      that tier: case does not matter, and trailing `p`s are optional. */
  lemma PickQualityTier(arg: string, t: Tier)
    ensures PickQuality(arg) == Some(Selector(t)) <==> Spells(arg, t)
  {
    var low := Lower(arg);
    var key := Key(arg);
    if Spells(arg, t) {
      var m: nat :| low == Stem(t) + Ps(m);
      RStripPs(Stem(t), m);
      LookupStem(t);
    }
    if PickQuality(arg) == Some(Selector(t)) {
      RStripCharSpec(low, 'p');
      var n := |low| - |key|;
      assert low == key + Ps(n);
      LookupOnlyStem(key, t);
    }
  }

  /** `pick_quality` answers `None` exactly when the token spells no tier. */
  lemma PickQualityNone(arg: string)
    ensures PickQuality(arg).None? <==> forall t :: !Spells(arg, t)
  {
    if PickQuality(arg).Some? {
      var v := PickQuality(arg).value;
      TableKeys();
      var k :| k in QualityFmt && QualityFmt[k] == v;
      var t :| Label(t) == k;
      PickQualityTier(arg, t);
    } else {
      forall t ensures !Spells(arg, t) {
        PickQualityTier(arg, t);
      }
    }
  }

  /** Appending `p` or `P` to a token does not change its tier. */
  lemma PickQualityTrailingP(arg: string)
    ensures PickQuality(arg + "p") == PickQuality(arg)
    ensures PickQuality(arg + "P") == PickQuality(arg)
  {
    assert Lower(arg + "p") == Lower(arg) + "p";
    assert Lower(arg + "P") == Lower(arg) + "p";
    RStripCharAppend(Lower(arg), 'p');
  }

  /** Lower-casing a token first does not change its tier. */
  lemma PickQualityLower(arg: string)
    ensures PickQuality(Lower(arg)) == PickQuality(arg)
  {
    LowerIdempotent(arg);
  }

  /** `720`, `720p`, `720P` and `720pp` all give the 720p expression. */
  lemma PickQuality720()
    ensures PickQuality("720") == Some(QualityFmt["720p"])
    ensures PickQuality("720p") == Some(QualityFmt["720p"])
    ensures PickQuality("720P") == Some(QualityFmt["720p"])
    ensures PickQuality("720pp") == Some(QualityFmt["720p"])
  {
    assert Lower("720") == Stem(P720) + Ps(0);
    PickQualityTier("720", P720);
    PickQualityTrailingP("720");
    assert "720" + "p" == "720p" && "720" + "P" == "720P";
    PickQualityTrailingP("720p");
    assert "720p" + "p" == "720pp";
  }

  /** `2K` and `2kp` give the 2k expression. */
  lemma PickQuality2K()
    ensures PickQuality("2K") == Some(QualityFmt["2k"])
    ensures PickQuality("2kp") == Some(QualityFmt["2k"])
  {
    assert Lower("2K") == Stem(K2) + Ps(0);
    PickQualityTier("2K", K2);
    assert Lower("2kp") == Stem(K2) + Ps(1);
    PickQualityTier("2kp", K2);
  }

  /** `1440p` is no tier, although 2k means a height of 1440. */
  lemma PickQuality1440()
    ensures PickQuality("1440p") == None
  {
    assert Lower("1440p") == "1440p";
    assert "1440p" == "1440" + "p";
    RStripCharAppend("1440", 'p');
    assert Key("1440p") == "1440";
  }

  /** A token is no quality when, lowered, it does not begin the way some
      tier's stem begins. */
  lemma PickQualityFirstChar(arg: string)
    requires arg != [] && forall t :: Lower(arg)[0] != Stem(t)[0]
    ensures PickQuality(arg) == None
  {
    forall t ensures !Spells(arg, t) {
    }
    PickQualityNone(arg);
  }
}
