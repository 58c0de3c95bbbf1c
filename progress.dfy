/** The pure half of `DownloadManager.hook` (downloader.py): turning one raw
    progress report of the download engine into a percentage and its details. */
module ProgressReport {
  import opened Text

  /** A progress report as the engine passes it to the hook; `None` stands for a missing key. */
  datatype RawEvent = RawEvent(status: string, percentStr: Option<string>, speedStr: Option<string>,
                               etaStr: Option<string>, filename: Option<string>, totalBytes: Option<int>)

  /** The details sent along with the percentage. */
  datatype ProgressInfo = ProgressInfo(speed: string, eta: string, filename: string, totalBytes: int)

  /** What one hook call does: nothing, emit `(percent, info)`, or raise with a message. */
  datatype Translation = Ignored | Emitted(percent: nat, info: ProgressInfo) | Raised(message: string)

  const CancelMessage := "Download cancelado pelo usuário"
  const Unknown := "N/A"

  // ---------------------------------------------------------------------------
  // re.sub(r'\x1b\[[0-9;]*m', '', ...)
  // ---------------------------------------------------------------------------

  const Esc := '\U{1B}'

  predicate IsSgrChar(c: char) {
    '0' <= c <= '9' || c == ';'
  }

  /** End of the run of `[0-9;]` characters that starts at `k`. */
  function SgrBodyEnd(s: string, k: nat): (e: nat)
    requires k <= |s|
    ensures k <= e <= |s|
    ensures forall i :: k <= i < e ==> IsSgrChar(s[i])
    ensures e < |s| ==> !IsSgrChar(s[e])
    decreases |s| - k
  {
    if k < |s| && IsSgrChar(s[k]) then SgrBodyEnd(s, k + 1) else k
  }

  /** The length of the colour sequence `ESC [ [0-9;]* m` at the start of `s`, if one starts there. */
  function SgrAt(s: string): (r: Option<nat>)
    ensures r.Some? ==> 3 <= r.value <= |s|
  {
    if |s| >= 2 && s[0] == Esc && s[1] == '[' then
      var e := SgrBodyEnd(s, 2);
      if e < |s| && s[e] == 'm' then Some(e + 1) else None
    else None
  }

  /** Removes the colour sequences in one left-to-right scan, as `re.sub` does. */
  function StripAnsi(s: string): (r: string)
    ensures |r| <= |s|
    decreases |s|
  {
    if s == [] then []
    else match SgrAt(s)
      case Some(n) => StripAnsi(s[n..])
      case None => [s[0]] + StripAnsi(s[1..])
  }

  /** A colour sequence with parameters `params`. */
  function Sgr(params: string): string {
    [Esc, '['] + params + "m"
  }

  lemma {:induction false} SgrBodyEndOfParams(params: string, rest: string)
    requires forall i | 0 <= i < |params| :: IsSgrChar(params[i])
    ensures SgrAt(Sgr(params) + rest) == Some(|params| + 3)
  {
    var s := Sgr(params) + rest;
    var e := SgrBodyEnd(s, 2);
    assert forall i | 2 <= i < |params| + 2 :: s[i] == params[i - 2];
    assert s[|params| + 2] == 'm';
    assert e == |params| + 2;
  }

  /** A colour sequence in front of the text is dropped whole. */
  lemma StripAnsiDropsSgr(params: string, rest: string)
    requires forall i | 0 <= i < |params| :: IsSgrChar(params[i])
    ensures StripAnsi(Sgr(params) + rest) == StripAnsi(rest)
  {
    SgrBodyEndOfParams(params, rest);
    var s := Sgr(params) + rest;
    assert s[|params| + 3..] == rest;
  }

  /** Text without an escape character passes through untouched. */
  lemma {:induction false} StripAnsiKeepsPlain(a: string, b: string)
    requires Esc !in a
    ensures StripAnsi(a + b) == a + StripAnsi(b)
    decreases |a|
  {
    if a != [] {
      var s := a + b;
      assert s[0] == a[0] != Esc;
      assert s[1..] == a[1..] + b;
      StripAnsiKeepsPlain(a[1..], b);
    } else {
      assert a + b == b;
    }
  }

  // ---------------------------------------------------------------------------
  // int(float(text))
  // ---------------------------------------------------------------------------

  predicate IsDigit(c: char) {
    '0' <= c <= '9'
  }

  predicate AllDigits(s: string) {
    forall i | 0 <= i < |s| :: IsDigit(s[i])
  }

  /** The number a string of decimal digits denotes; the empty string denotes 0. */
  function DigitsValue(s: string): (n: nat)
    requires AllDigits(s)
  {
    if s == [] then 0 else 10 * DigitsValue(s[..|s| - 1]) + (s[|s| - 1] as int - '0' as int)
  }

  /** The decimals `float` accepts here: digits with at most one point and at least one digit. */
  predicate PlainDecimal(text: string) {
    (text != [] && AllDigits(text)) ||
    (|text| > 1 && exists k | 0 <= k < |text| :: text[k] == '.' && AllDigits(text[..k]) && AllDigits(text[k + 1..]))
  }

  /** `int(float(text))` for a non-negative decimal: a value exactly when the
      text is a plain decimal, and then the value of the digits before the
      point (or of all of them), that is, the number truncated toward zero. */
  function TruncatedDecimal(text: string): (r: Option<nat>)
    ensures r.Some? <==> PlainDecimal(text)
    ensures r.Some? ==> exists k | 0 <= k <= |text| ::
              (k == |text| || text[k] == '.') && AllDigits(text[..k]) && r.value == DigitsValue(text[..k])
  {
    match Find(text, ".")
    case None =>
      NoPointPlain(text);
      if text != [] && AllDigits(text) then
        assert text[..|text|] == text;
        Some(DigitsValue(text))
      else None
    case Some(i) =>
      PointPlain(text, i);
      var whole, fraction := text[..i], text[i + 1..];
      if AllDigits(whole) && AllDigits(fraction) && |whole| + |fraction| > 0
      then Some(DigitsValue(whole)) else None
  }

  /** Without a point, a plain decimal is a non-empty run of digits. */
  lemma NoPointPlain(text: string)
    requires !Contains(text, ".")
    ensures PlainDecimal(text) <==> text != [] && AllDigits(text)
  {
    if |text| > 1 && exists k | 0 <= k < |text| :: text[k] == '.' && AllDigits(text[..k]) && AllDigits(text[k + 1..]) {
      var k :| 0 <= k < |text| && text[k] == '.' && AllDigits(text[..k]) && AllDigits(text[k + 1..]);
      CharOccurs(text, '.', k);
      assert false;
    }
  }

  /** With the first point at `i`, a plain decimal has digits on both sides of it and one digit at least. */
  lemma PointPlain(text: string, i: nat)
    requires Find(text, ".") == Some(i)
    ensures text[i] == '.'
    ensures PlainDecimal(text) <==> |text| > 1 && AllDigits(text[..i]) && AllDigits(text[i + 1..])
  {
    assert text[i..i + 1] == ".";
    assert text[i] == text[i..i + 1][0];
    if |text| > 1 && exists k | 0 <= k < |text| :: text[k] == '.' && AllDigits(text[..k]) && AllDigits(text[k + 1..]) {
      var k :| 0 <= k < |text| && text[k] == '.' && AllDigits(text[..k]) && AllDigits(text[k + 1..]);
      if k < i {
        CharOccurs(text, '.', k);
      } else if i < k {
        assert text[..k][i] == '.';
      }
    }
    assert !IsDigit(text[i]);
  }

  lemma {:induction false} NoPointInDigits(s: string)
    requires AllDigits(s)
    ensures !Contains(s, ".")
  {
    forall k | 0 <= k <= |s| ensures !OccursAt(s, ".", k) {
      if k + 1 <= |s| {
        assert s[k..k + 1][0] == s[k];
      }
    }
  }

  /** `whole.fraction` truncates to the value of `whole`. */
  lemma DecimalTruncates(whole: string, fraction: string)
    requires whole != [] && AllDigits(whole) && AllDigits(fraction)
    ensures TruncatedDecimal(whole + "." + fraction) == Some(DigitsValue(whole))
  {
    var t := whole + "." + fraction;
    var n := |whole|;
    assert t[n..n + 1] == ".";
    forall j | 0 <= j < n ensures !OccursAt(t, ".", j) {
      assert t[j..j + 1][0] == t[j] == whole[j];
    }
    assert OccursAt(t, ".", n);
    assert Contains(t, ".");
    var f := Find(t, ".").value;
    assert f >= n;
    assert f <= n;
    assert t[..n] == whole && t[n + 1..] == fraction;
  }

  /** The text `float` is given: colour sequences removed, then `%`, then surrounding whitespace. */
  function PercentText(raw: string): string {
    Strip(RemoveChar(StripAnsi(raw), '%'))
  }

  /** The ValueError text of `float()`. */
  function FloatError(text: string): string {
    "could not convert string to float: '" + text + "'"
  }

  /** The hook when no cancellation is pending: only a `downloading` report
      emits; the percentage is `'0.0'` when absent; missing details read
      `N/A`, a missing size 0; a percentage `float` rejects raises. */
  function Translate(d: RawEvent): (r: Translation)
    ensures d.status != "downloading" ==> r == Ignored
    ensures r.Emitted? ==> d.status == "downloading"
    ensures r.Emitted? ==> r.info == ProgressInfo(d.speedStr.GetOr(Unknown), d.etaStr.GetOr(Unknown),
                                                 d.filename.GetOr(Unknown), d.totalBytes.GetOr(0))
    ensures r.Emitted? ==> Some(r.percent) == TruncatedDecimal(PercentText(d.percentStr.GetOr("0.0")))
    ensures r.Raised? <==> d.status == "downloading" && TruncatedDecimal(PercentText(d.percentStr.GetOr("0.0"))).None?
  {
    if d.status != "downloading" then Ignored
    else
      var text := PercentText(d.percentStr.GetOr("0.0"));
      match TruncatedDecimal(text)
      case None => Raised(FloatError(text))
      case Some(p) =>
        Emitted(p, ProgressInfo(d.speedStr.GetOr(Unknown), d.etaStr.GetOr(Unknown),
                                d.filename.GetOr(Unknown), d.totalBytes.GetOr(0)))
  }

  /** A pending cancellation overrides whatever the report would give. */
  function Screened(cancelled: bool, t: Translation): Translation {
    if cancelled then Raised(CancelMessage) else t
  }

  /** The whole hook: a pending cancellation raises before the report is even looked at. */
  function Hook(cancelled: bool, d: RawEvent): (r: Translation)
    ensures cancelled ==> r == Raised(CancelMessage)
    ensures !cancelled ==> r == Translate(d)
  {
    Screened(cancelled, Translate(d))
  }

  /** Colour sequences around plain text leave just the text. */
  lemma StripAnsiColoured(before: string, text: string, after: string)
    requires forall i | 0 <= i < |before| :: IsSgrChar(before[i])
    requires forall i | 0 <= i < |after| :: IsSgrChar(after[i])
    requires Esc !in text
    ensures StripAnsi(Sgr(before) + text + Sgr(after)) == text
  {
    assert Sgr(before) + text + Sgr(after) == Sgr(before) + (text + Sgr(after));
    StripAnsiDropsSgr(before, text + Sgr(after));
    StripAnsiKeepsPlain(text, Sgr(after));
    StripAnsiDropsSgr(after, []);
    assert Sgr(after) + [] == Sgr(after);
  }

  /** Removing the `%` that ends a number leaves the number. */
  lemma {:induction false} RemoveTrailingChar(s: string, c: char)
    requires c !in s
    ensures RemoveChar(s + [c], c) == s
    decreases |s|
  {
    if s == [] {
      assert s + [c] == [c];
    } else {
      assert (s + [c])[1..] == s[1..] + [c];
      RemoveTrailingChar(s[1..], c);
    }
  }

  lemma {:induction false} NoEscInDigits(s: string)
    requires AllDigits(s)
    ensures Esc !in s
  {
  }

  /** Digits around a dot have no whitespace at either end. */
  lemma DecimalIsStripped(whole: string, fraction: string)
    requires whole != [] && AllDigits(whole) && AllDigits(fraction)
    ensures Strip(whole + "." + fraction) == whole + "." + fraction
  {
    var t := whole + "." + fraction;
    assert !IsSpace(t[0]) by { assert t[0] == whole[0] && IsDigit(whole[0]); }
    if fraction == [] {
      assert t[|t| - 1] == '.';
    } else {
      assert t[|t| - 1] == fraction[|fraction| - 1] && IsDigit(fraction[|fraction| - 1]);
    }
    StripKeeps(t);
  }

  /** Removing the colour sequences and the `%` from a coloured `whole.fraction%` leaves `whole.fraction`. */
  lemma ColouredText(before: string, whole: string, fraction: string, after: string)
    requires forall i | 0 <= i < |before| :: IsSgrChar(before[i])
    requires forall i | 0 <= i < |after| :: IsSgrChar(after[i])
    requires AllDigits(whole) && AllDigits(fraction)
    ensures RemoveChar(StripAnsi(Sgr(before) + (whole + "." + fraction + "%") + Sgr(after)), '%') == whole + "." + fraction
  {
    var t := whole + "." + fraction;
    assert StripAnsi(Sgr(before) + (t + "%") + Sgr(after)) == t + "%" by {
      NoEscInDigits(whole);
      NoEscInDigits(fraction);
      assert Esc !in t + "%";
      StripAnsiColoured(before, t + "%", after);
    }
    assert t + "%" == t + ['%'];
    assert '%' !in t;
    RemoveTrailingChar(t, '%');
  }

  /** A coloured `whole.fraction%` is read as the value of `whole`. */
  lemma ColouredDecimal(before: string, whole: string, fraction: string, after: string)
    requires forall i | 0 <= i < |before| :: IsSgrChar(before[i])
    requires forall i | 0 <= i < |after| :: IsSgrChar(after[i])
    requires whole != [] && AllDigits(whole) && AllDigits(fraction)
    ensures PercentText(Sgr(before) + (whole + "." + fraction + "%") + Sgr(after)) == whole + "." + fraction
    ensures TruncatedDecimal(PercentText(Sgr(before) + (whole + "." + fraction + "%") + Sgr(after)))
              == Some(DigitsValue(whole))
  {
    ColouredText(before, whole, fraction, after);
    DecimalIsStripped(whole, fraction);
    DecimalTruncates(whole, fraction);
  }

  /** A coloured `45.0%` as the engine prints it gives 45. */
  lemma ColouredPercent(raw: string, green: string, reset: string, whole: string, fraction: string)
    requires green == "0;32" && reset == "0" && whole == "45" && fraction == "0"
    requires raw == Sgr(green) + (whole + "." + fraction + "%") + Sgr(reset)
    ensures PercentText(raw) == whole + "." + fraction
    ensures TruncatedDecimal(PercentText(raw)) == Some(45)
  {
    assert forall i | 0 <= i < |green| :: IsSgrChar(green[i]);
    ColouredDecimal(green, whole, fraction, reset);
    assert DigitsValue(whole) == 45 by {
      assert whole[..1] == "4";
      assert "4"[..0] == [];
    }
  }

  /** The default percentage `'0.0'` reads as 0. */
  lemma DefaultPercentIsZero()
    ensures TruncatedDecimal(PercentText("0.0")) == Some(0)
  {
    var whole, fraction := "0", "0";
    assert whole + "." + fraction == "0.0";
    assert PercentText("0.0") == "0.0" by {
      StripAnsiKeepsPlain("0.0", []);
      assert "0.0" + [] == "0.0";
      assert RemoveChar("0.0", '%') == "0.0";
      DecimalIsStripped(whole, fraction);
    }
    DecimalTruncates(whole, fraction);
    assert DigitsValue(whole) == 0 by {
      assert whole[..0] == [];
    }
  }

  /** A `downloading` report without a percentage emits 0. */
  lemma MissingPercentIsZero(d: RawEvent)
    requires d.status == "downloading" && d.percentStr.None?
    ensures Translate(d).Emitted? && Translate(d).percent == 0
  {
    DefaultPercentIsZero();
  }
}
