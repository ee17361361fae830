/** The two duration classifiers: the anchored `PT#M#S` parser of the
    hardened handler (unmatched input counts as 0 seconds) and the
    unanchored "is Short" check of the older handler. Both cover only the
    minutes and seconds of an ISO 8601 duration (section 4.4.3.2 of ISO
    8601); neither knows hours or days. */
module Duration {
  import opened Wrappers
  import opened Text

  /** The two capture groups of `PT(?:(\d+)M)?(?:(\d+)S)?`. */
  datatype Captures = Captures(minutes: Option<string>, seconds: Option<string>)

  predicate WellFormedGroup(g: Option<string>) {
    g.Some? ==> |g.value| > 0 && AllDigits(g.value)
  }

  predicate WellFormed(c: Captures) {
    WellFormedGroup(c.minutes) && WellFormedGroup(c.seconds)
  }

  /** The text one present group stands for: its digits, then its unit. */
  function Component(g: Option<string>, unit: char): string {
    match g
    case None => ""
    case Some(d) => d + [unit]
  }

  /** The text after `PT` that the captures stand for. */
  function Body(c: Captures): string {
    Component(c.minutes, 'M') + Component(c.seconds, 'S')
  }

  /** The duration string the captures stand for. */
  function Render(c: Captures): string {
    "PT" + Body(c)
  }

  /** Length of the run of ASCII digits (`\d`) that starts `s`. */
  function DigitRun(s: string): (n: nat)
    ensures n <= |s|
    ensures forall i :: 0 <= i < n ==> IsDigit(s[i])
    ensures n < |s| ==> !IsDigit(s[n])
  {
    if s != [] && IsDigit(s[0]) then 1 + DigitRun(s[1..]) else 0
  }

  /** `s` starts with one or more digits followed by `unit`. */
  predicate GroupStarts(s: string, unit: char) {
    0 < DigitRun(s) < |s| && s[DigitRun(s)] == unit
  }

  /** The optional group `(?:(\d+)U)?` tried at the start of `s`: the
      captured digits (if the group matched) and the text after it. The
      group is taken exactly when `s` starts with digits then the unit, and
      it takes all of those digits. */
  function Group(s: string, unit: char): (r: (Option<string>, string))
    ensures r.0.Some? <==> GroupStarts(s, unit)
    ensures r.0.Some? ==> r.0.value == s[..DigitRun(s)]
    ensures r.0.None? ==> r.1 == s
    ensures WellFormedGroup(r.0) && s == Component(r.0, unit) + r.1
  {
    var n := DigitRun(s);
    if 0 < n < |s| && s[n] == unit then
      assert s == s[..n] + [unit] + s[n + 1..];
      (Some(s[..n]), s[n + 1..])
    else (None, s)
  }

  /** Both optional groups tried in turn at the start of `s`: the captures
      and the text left after them. The minutes group is taken exactly when
      `s` starts with digits then "M"; the seconds group exactly when the
      text after the minutes group (the seconds component, then the rest)
      starts with digits then "S". */
  function Groups(s: string): (r: (Captures, string))
    ensures WellFormed(r.0) && s == Body(r.0) + r.1
    ensures r.0.minutes.Some? <==> GroupStarts(s, 'M')
    ensures r.0.seconds.Some? <==> GroupStarts(Component(r.0.seconds, 'S') + r.1, 'S')
  {
    var minutes := Group(s, 'M');
    var seconds := Group(minutes.1, 'S');
    (Captures(minutes.0, seconds.0), seconds.1)
  }

  /** `/^PT(?:(\d+)M)?(?:(\d+)S)?$/.exec(s)`: the captures when the whole
      string matches. A match is always the rendering of its captures. */
  function MatchAnchored(s: string): (r: Option<Captures>)
    ensures r.Some? ==> WellFormed(r.value) && Render(r.value) == s
  {
    if |s| >= 2 && s[..2] == "PT" then
      var (c, rest) := Groups(s[2..]);
      if rest == [] then
        RenderWhole(s, c);
        Some(c)
      else None
    else None
  }

  /** A string that is "PT" followed by the text the captures stand for is
      their rendering. */
  lemma RenderWhole(s: string, c: Captures)
    requires |s| >= 2 && s[..2] == "PT" && s[2..] == Body(c) + []
    ensures Render(c) == s
  {
    assert Body(c) + [] == Body(c);
    assert s == s[..2] + s[2..];
  }

  /** `Number(g || 0)` on one capture: the value of its digits, 0 when the
      group did not take part in the match. */
  function GroupValue(g: Option<string>): (v: nat)
    requires WellFormedGroup(g)
    ensures g.None? ==> v == 0
    ensures g.Some? ==> v == DigitsValue(g.value)
  {
    if g.Some? then DigitsValue(g.value) else 0
  }

  /** `Number(m?.[1] || 0) * 60 + Number(m?.[2] || 0)`: minutes count 60
      seconds each, and a missing group counts as 0. */
  function Seconds(c: Captures): (total: nat)
    requires WellFormed(c)
    ensures c.minutes.None? ==> total == GroupValue(c.seconds)
    ensures c.seconds.None? ==> total == 60 * GroupValue(c.minutes)
    ensures c.minutes.Some? && c.seconds.Some? ==> total == 60 * GroupValue(c.minutes) + GroupValue(c.seconds)
    ensures total >= 60 * GroupValue(c.minutes) && total >= GroupValue(c.seconds)
  {
    GroupValue(c.minutes) * 60 + GroupValue(c.seconds)
  }

  /** `parseISODurationToSeconds`: the total seconds of a matching string,
      0 for every string the anchored pattern rejects. */
  function ParseISODurationToSeconds(iso: string): (sec: nat)
    ensures MatchAnchored(iso).None? ==> sec == 0
    ensures sec > 0 ==> |iso| > 2 && iso[..2] == "PT"
  {
    match MatchAnchored(iso)
    case None => 0
    case Some(c) => Seconds(c)
  }

  /** The hardened handler's `isShort`: at most 60 seconds, which includes
      0 seconds and therefore every string the parser rejects. */
  function IsShortHardened(iso: string): (r: bool)
    ensures MatchAnchored(iso).None? ==> r
    ensures MatchAnchored(iso).Some? ==> (r <==> Seconds(MatchAnchored(iso).value) <= 60)
  {
    ParseISODurationToSeconds(iso) <= 60
  }

  lemma {:induction false} DigitRunOfDigits(d: string, rest: string)
    requires AllDigits(d)
    requires rest == [] || !IsDigit(rest[0])
    ensures DigitRun(d + rest) == |d|
  {
    if d != [] {
      assert (d + rest)[1..] == d[1..] + rest;
      DigitRunOfDigits(d[1..], rest);
    } else {
      assert d + rest == rest;
    }
  }

  /** A present group is recognised again after rendering. */
  lemma GroupOfComponent(d: string, unit: char, rest: string)
    requires |d| > 0 && AllDigits(d) && !IsDigit(unit)
    ensures Group(d + [unit] + rest, unit) == (Some(d), rest)
  {
    DigitRunOfDigits(d, [unit] + rest);
    assert d + [unit] + rest == d + ([unit] + rest);
    assert (d + [unit] + rest)[..|d|] == d;
    assert (d + [unit] + rest)[|d| + 1..] == rest;
  }

  /** A group, present or absent, is recognised again after rendering,
      provided what follows cannot extend it. */
  lemma GroupOfText(g: Option<string>, unit: char, rest: string)
    requires WellFormedGroup(g) && !IsDigit(unit)
    requires rest == [] || !IsDigit(rest[0])
    ensures Group(Component(g, unit) + rest, unit) == (g, rest)
  {
    match g {
      case None =>
        assert Component(g, unit) + rest == rest;
      case Some(d) =>
        GroupOfComponent(d, unit, rest);
    }
  }

  /** Rendered seconds are never mistaken for minutes. */
  lemma SecondsAreNotMinutes(g: Option<string>, rest: string)
    requires WellFormedGroup(g)
    requires rest == [] || !IsDigit(rest[0])
    ensures Group(Component(g, 'S') + rest, 'M') == (None, Component(g, 'S') + rest)
  {
    match g {
      case None =>
        assert Component(g, 'S') + rest == rest;
      case Some(d) =>
        DigitRunOfDigits(d, ['S'] + rest);
        assert Component(g, 'S') + rest == d + (['S'] + rest);
    }
  }

  /** The groups are recovered from the text they stand for, whatever
      follows it, provided what follows cannot extend a group. */
  lemma GroupsOfBody(c: Captures, rest: string)
    requires WellFormed(c)
    requires rest == [] || !IsDigit(rest[0])
    ensures Groups(Body(c) + rest) == (c, rest)
  {
    var secondsText := Component(c.seconds, 'S') + rest;
    GroupOfText(c.seconds, 'S', rest);
    assert Body(c) + rest == Component(c.minutes, 'M') + secondsText;
    match c.minutes {
      case None =>
        SecondsAreNotMinutes(c.seconds, rest);
        assert Body(c) + rest == secondsText;
      case Some(dm) =>
        GroupOfComponent(dm, 'M', secondsText);
    }
  }

  /** The anchored pattern accepts exactly the renderings of well-formed
      captures and gives back those captures (with `MatchAnchored`'s own
      postcondition, this is both directions). */
  lemma MatchAnchoredRender(c: Captures)
    requires WellFormed(c)
    ensures MatchAnchored(Render(c)) == Some(c)
  {
    GroupsOfBody(c, "");
    assert Body(c) + "" == Body(c);
    assert Render(c)[2..] == Body(c);
  }

  /** Parsing gives back the minutes and seconds a duration string was
      written with, for each of the four presence combinations. */
  lemma ParseRoundTrip(minutes: Option<nat>, seconds: Option<nat>)
    ensures var c := Captures(
        if minutes.Some? then Some(Decimal(minutes.value)) else None,
        if seconds.Some? then Some(Decimal(seconds.value)) else None);
      ParseISODurationToSeconds(Render(c)) == minutes.GetOr(0) * 60 + seconds.GetOr(0)
  {
    var c := Captures(
        if minutes.Some? then Some(Decimal(minutes.value)) else None,
        if seconds.Some? then Some(Decimal(seconds.value)) else None);
    MatchAnchoredRender(c);
  }

  /** Neither parser knows hours: an hour component before the minutes and
      seconds makes the anchored pattern fail, so the duration counts as 0
      seconds and the hardened handler classifies it as Short. */
  lemma HoursParseToZero(hours: string, c: Captures)
    requires |hours| > 0 && AllDigits(hours) && WellFormed(c)
    ensures ParseISODurationToSeconds("PT" + hours + "H" + Body(c)) == 0
    ensures IsShortHardened("PT" + hours + "H" + Body(c))
  {
    var s := "PT" + hours + "H" + Body(c);
    assert s[..2] == "PT";
    assert s[2..] == hours + ['H'] + Body(c);
    DigitRunOfDigits(hours, ['H'] + Body(c));
    assert hours + ['H'] + Body(c) == hours + (['H'] + Body(c));
    var (g, rest) := Groups(s[2..]);
    assert g.minutes.None?;
    assert g.seconds.None?;
    assert rest != [];
  }

  /** The hardened parser on the documented inputs. */
  lemma HardenedExamples()
    ensures ParseISODurationToSeconds("PT1M") == 60
    ensures ParseISODurationToSeconds("PT45S") == 45
    ensures ParseISODurationToSeconds("PT1M15S") == 75
    ensures ParseISODurationToSeconds("") == 0
    ensures ParseISODurationToSeconds("PT1H") == 0
    ensures IsShortHardened("PT0S") && IsShortHardened("PT1H") && !IsShortHardened("PT1M1S")
  {
    OneMinute();
    FortyFiveSeconds();
    SeventyFiveSeconds();
    ZeroSeconds();
    SixtyOneSeconds();
    OneHour();
  }

  lemma OneHour()
    ensures ParseISODurationToSeconds("PT1H") == 0 && IsShortHardened("PT1H")
  {
    var c := Captures(None, None);
    assert "PT" + "1" + "H" + Body(c) == "PT1H";
    HoursParseToZero("1", c);
  }

  lemma OneMinute()
    ensures ParseISODurationToSeconds("PT1M") == 60 && IsShortISO8601("PT1M")
  {
    var c := Captures(Some("1"), None);
    assert Render(c) == "PT1M";
    assert DigitsValue("1") == 1;
    RenderedExample(c, "PT1M");
  }

  lemma FortyFiveSeconds()
    ensures ParseISODurationToSeconds("PT45S") == 45
  {
    var c := Captures(None, Some("45"));
    assert Render(c) == "PT45S";
    assert DigitsValue("45") == DigitsValue("4") * 10 + 5 == 45;
    RenderedExample(c, "PT45S");
  }

  lemma SeventyFiveSeconds()
    ensures ParseISODurationToSeconds("PT1M15S") == 75
  {
    var c := Captures(Some("1"), Some("15"));
    assert Render(c) == "PT1M15S";
    assert DigitsValue("15") == DigitsValue("1") * 10 + 5 == 15;
    RenderedExample(c, "PT1M15S");
  }

  lemma ZeroSeconds()
    ensures ParseISODurationToSeconds("PT0S") == 0 && !IsShortISO8601("PT0S")
  {
    var c := Captures(None, Some("0"));
    assert Render(c) == "PT0S";
    assert DigitsValue("0") == 0;
    RenderedExample(c, "PT0S");
  }

  lemma SixtyOneSeconds()
    ensures ParseISODurationToSeconds("PT1M1S") == 61 && !IsShortISO8601("PT1M1S")
  {
    var c := Captures(Some("1"), Some("1"));
    assert Render(c) == "PT1M1S";
    assert DigitsValue("1") == 1;
    RenderedExample(c, "PT1M1S");
  }

  lemma SixtySeconds()
    ensures ParseISODurationToSeconds("PT60S") == 60 && IsShortISO8601("PT60S")
  {
    var c := Captures(None, Some("60"));
    assert Render(c) == "PT60S";
    assert DigitsValue("60") == DigitsValue("6") * 10 + 0 == 60;
    RenderedExample(c, "PT60S");
  }

  lemma RenderedExample(c: Captures, s: string)
    requires WellFormed(c) && Render(c) == s
    ensures ParseISODurationToSeconds(s) == Seconds(c)
    ensures IsShortISO8601(s) <==> 0 < Seconds(c) <= 60
  {
    MatchAnchoredRender(c);
    ClassifiersAgreeOnWellFormed(c);
  }

  // ---- the unanchored check of the older handler ----

  predicate PTAt(s: string, j: int) {
    0 <= j && j + 2 <= |s| && s[j] == 'P' && s[j + 1] == 'T'
  }

  /** Where the leftmost "PT" of `s` starts, if there is one. */
  function IndexOfPT(s: string): (r: Option<nat>)
    ensures r.Some? ==> r.value + 2 <= |s|
    ensures r.Some? ==> PTAt(s, r.value) && forall j :: 0 <= j < r.value ==> !PTAt(s, j)
    ensures r.None? ==> forall j :: !PTAt(s, j)
  {
    if |s| < 2 then None
    else if s[0] == 'P' && s[1] == 'T' then Some(0)
    else
      match IndexOfPT(s[1..])
      case None =>
        assert forall j :: PTAt(s, j) ==> j == 0 || PTAt(s[1..], j - 1);
        None
      case Some(i) =>
        assert forall j :: PTAt(s, j) && j > 0 ==> PTAt(s[1..], j - 1);
        Some(i + 1)
  }

  /** `duration.match(/PT(?:(\d+)M)?(?:(\d+)S)?/)`: with no anchor and both
      groups optional, it matches at the leftmost "PT" and captures whatever
      groups follow it there, ignoring the rest of the string. */
  function MatchUnanchored(s: string): (r: Option<Captures>)
    ensures r.None? <==> forall j :: !PTAt(s, j)
    ensures r.Some? ==> WellFormed(r.value)
    ensures r.Some? ==> IndexOfPT(s).Some? && r.value == Groups(After(s, IndexOfPT(s).value + 2)).0
  {
    var at := IndexOfPT(s);
    if at.None? then None else Some(Groups(After(s, at.value + 2)).0)
  }

  /** The text of `s` from position `n` on. */
  function After(s: string, n: nat): string
    requires n <= |s|
  {
    s[n..]
  }

  /** `isShortISO8601`: strictly positive and at most 60 seconds. */
  function IsShortISO8601(duration: string): (r: bool)
    ensures (forall j :: !PTAt(duration, j)) ==> !r
    ensures r <==> MatchUnanchored(duration).Some? && 0 < Seconds(MatchUnanchored(duration).value) <= 60
  {
    match MatchUnanchored(duration)
    case None => false
    case Some(c) => 0 < Seconds(c) <= 60
  }

  /** On a well-formed duration the two classifiers agree, except that the
      older one does not count 0 seconds as Short. */
  lemma ClassifiersAgreeOnWellFormed(c: Captures)
    requires WellFormed(c)
    ensures IsShortISO8601(Render(c)) <==> 0 < Seconds(c) <= 60
    ensures IsShortISO8601(Render(c)) <==>
      IsShortHardened(Render(c)) && ParseISODurationToSeconds(Render(c)) > 0
  {
    MatchAnchoredRender(c);
    LegacyMatchOfRender(c);
  }

  /** The older pattern also finds the captures of a rendered duration. */
  lemma LegacyMatchOfRender(c: Captures)
    requires WellFormed(c)
    ensures MatchUnanchored(Render(c)) == Some(c)
  {
    var s := Render(c);
    assert PTAt(s, 0);
    assert IndexOfPT(s) == Some(0);
    assert After(s, 2) == Body(c) + "";
    GroupsOfBody(c, "");
  }

  /** The older check finds a duration anywhere in a longer string: after
      any text without "PT", and before any text that cannot extend a
      group, a rendered duration is a Short exactly when its total is in
      (0, 60]. */
  lemma LegacyCheckInContext(p: string, c: Captures, y: string)
    requires forall j :: !PTAt(p, j)
    requires WellFormed(c)
    requires y == [] || !IsDigit(y[0])
    ensures IsShortISO8601(p + Render(c) + y) <==> 0 < Seconds(c) <= 60
  {
    LegacyMatchInContext(p, c, y);
  }

  /** The older pattern picks the captures of a rendered duration out of
      its surrounding text. */
  lemma LegacyMatchInContext(p: string, c: Captures, y: string)
    requires forall j :: !PTAt(p, j)
    requires WellFormed(c)
    requires y == [] || !IsDigit(y[0])
    ensures MatchUnanchored(p + Render(c) + y) == Some(c)
  {
    var t := Render(c) + y;
    var s := p + t;
    assert p + Render(c) + y == s;
    assert t[..2] == "PT";
    LeftmostPT(p, t);
    assert After(s, |p| + 2) == t[2..] == Body(c) + y;
    GroupsOfBody(c, y);
  }

  /** After text without "PT", a "PT" is the leftmost one. */
  lemma LeftmostPT(p: string, t: string)
    requires forall j :: !PTAt(p, j)
    requires |t| >= 2 && t[..2] == "PT"
    ensures IndexOfPT(p + t) == Some(|p|)
  {
    var s := p + t;
    assert PTAt(s, |p|);
    forall j | 0 <= j < |p| ensures !PTAt(s, j) {
      if j + 1 < |p| {
        assert !PTAt(p, j);
      }
    }
  }

  /** The older check on the documented inputs. */
  lemma LegacyExamples()
    ensures IsShortISO8601("PT60S") && IsShortISO8601("PT1M")
    ensures !IsShortISO8601("PT1M1S") && !IsShortISO8601("PT0S")
    ensures !IsShortISO8601("")
    ensures !IsShortISO8601("PT1H2M")
  {
    SixtySeconds();
    OneMinute();
    SixtyOneSeconds();
    ZeroSeconds();
    assert !PTAt("", 0);
    HourThenMinutesIsZero();
  }

  lemma HourThenMinutesIsZero()
    ensures !IsShortISO8601("PT1H2M")
  {
    var s := "PT1H2M";
    assert PTAt(s, 0);
    assert IndexOfPT(s) == Some(0);
    var body := After(s, 2);
    assert body == "1" + "H2M";
    DigitRunOfDigits("1", "H2M");
    assert body[1] == 'H';
    assert Group(body, 'M') == (None, body);
    assert Group(body, 'S') == (None, body);
    assert MatchUnanchored(s) == Some(Captures(None, None));
  }
}
