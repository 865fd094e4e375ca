/** What a screen, a title and a text, tells about its item. */
module Screens {
  import opened Bytes
  import opened Radix
  import opened Text
  import opened Decimal
  import opened TokenAmount
  import opened Base58
  import opened ShortKeys
  import opened Strings
  import opened Summary
  import opened Display
  import opened Titles
  import opened Calendar
  import opened Rfc3339

  // ---- Texts that are cut ----

  /** Equal texts, or texts that share what is left of them when one of them is cut. */
  predicate TextsAlike(a: string, b: string, n: nat)
    requires n >= 2
  {
    || a == b
    || (&& |a| >= n - 1 && |b| >= n - 1 && a[..n - 2] == b[..n - 2]
        && (|a| >= n || a[n - 2] == '~') && (|b| >= n || b[n - 2] == '~'))
  }

  /** Exactly these texts look alike in a buffer. */
  lemma ShownAlike(a: string, b: string, n: nat)
    requires n >= 2
    ensures Shown(a, n) == Shown(b, n) <==> TextsAlike(a, b, n)
  {
    if |a| >= n - 1 && |b| >= n - 1 {
      ShownEnds(a, n);
      ShownEnds(b, n);
      assert Shown(a, n) == Shown(a, n)[..n - 2] + [Shown(a, n)[n - 2]];
      assert Shown(b, n) == Shown(b, n)[..n - 2] + [Shown(b, n)[n - 2]];
      if |a| < n && |b| < n && a[..n - 2] == b[..n - 2] && a[n - 2] == b[n - 2] {
        assert a == a[..n - 2] + [a[n - 2]] && b == b[..n - 2] + [b[n - 2]];
      }
    }
  }

  lemma ShownEnds(s: string, n: nat)
    requires n >= 2 && |s| >= n - 1
    ensures |Shown(s, n)| == n - 1 && Shown(s, n)[..n - 2] == s[..n - 2]
    ensures Shown(s, n)[n - 2] == if |s| >= n then '~' else s[n - 2]
  {
    ShownTells(s, n);
  }

  /** A text that is not cut and does not look as if it were. */
  predicate TextTold(a: string)
  {
    |a| < 44 || (|a| == 44 && a[43] != '~')
  }

  /** No other C string is shown like this one, exactly under that condition. */
  lemma TextToldIff(a: cstring)
    ensures TextTold(a) <==> forall b: cstring ::
      Shown(b, TEXT_BUFFER_LENGTH) == Shown(a, TEXT_BUFFER_LENGTH) ==> b == a
  {
    if TextTold(a) {
      forall b: cstring | Shown(b, TEXT_BUFFER_LENGTH) == Shown(a, TEXT_BUFFER_LENGTH) ensures b == a {
        ShownAlike(b, a, TEXT_BUFFER_LENGTH);
      }
    } else {
      var b: cstring := a + "x";
      assert b[..43] == a[..43];
      ShownAlike(b, a, TEXT_BUFFER_LENGTH);
      assert |b| != |a|;
    }
  }

  // ---- Seeds, which may hold NULs ----

  /** A text without NULs is not ended early. */
  lemma NotEnded(s: string)
    requires '\0' !in s
    ensures Terminated(s) == s
  {
    TerminatedPrefix(s, |s|);
  }

  /** What is shown of a seed: up to its first NUL, or 43 characters and the mark of a cut. */
  function SeedText(s: string): string
  {
    if |s| < TEXT_BUFFER_LENGTH || |Terminated(s)| < 43 then Terminated(s) else s[..43] + "~"
  }

  lemma SeedShown(s: string)
    ensures Terminated(Shown(s, TEXT_BUFFER_LENGTH)) == SeedText(s)
  {
    if |s| >= TEXT_BUFFER_LENGTH {
      var u, k := s[..43] + "~", |Terminated(s)|;
      assert Shown(s, TEXT_BUFFER_LENGTH) == u;
      TerminatedPrefix(s, 43);
      if k < 43 {
        assert u[..k] == Terminated(s) && u[k] == s[k];
        TerminatedIs(u, k);
      } else {
        NotEnded(u);
      }
    }
  }

  lemma TerminatedMore(s: string, more: string)
    ensures |Terminated(s)| < |s| ==> Terminated(s + more) == Terminated(s)
    ensures |Terminated(s)| == |s| ==> |Terminated(s + more)| >= |s|
  {
    var u, k := s + more, |Terminated(s)|;
    assert u[..k] == Terminated(s);
    if k < |s| {
      assert u[k] == s[k];
      TerminatedIs(u, k);
    } else {
      TerminatedPrefix(u, k);
    }
  }

  /** Of 44 characters, none of them NUL and the last one not the mark of a cut. */
  predicate SeedTold(a: string)
  {
    |a| == 44 && '\0' !in a && a[43] != '~'
  }

  lemma SeedIsTold(a: string, b: string)
    requires SeedTold(a) && SeedText(b) == SeedText(a)
    ensures b == a
  {
    NotEnded(a);
  }

  /** A seed that is not told looks like this other one. */
  function SeedTwin(a: string): string
  {
    if |a| < 44 then a + "\0" else if |a| == 44 && '\0' in a then Terminated(a) else a + "x"
  }

  lemma EndedTwin(a: string)
    requires |a| < 44 || (|a| == 44 && '\0' in a)
    ensures SeedTwin(a) != a && SeedText(SeedTwin(a)) == SeedText(a)
  {
    if |a| < 44 {
      var b, k := a + "\0", |Terminated(a)|;
      TerminatedMore(a, "\0");
      if k == |a| {
        assert b[..k] == Terminated(a) && b[k] == '\0';
        TerminatedIs(b, k);
      }
    } else {
      NotEnded(Terminated(a));
      assert Terminated(a) == a ==> '\0' !in a;
    }
  }

  lemma CutTwin(a: string)
    requires !SeedTold(a) && !(|a| < 44 || (|a| == 44 && '\0' in a))
    ensures SeedTwin(a) != a && SeedText(SeedTwin(a)) == SeedText(a)
  {
    var b := a + "x";
    TerminatedMore(a, "x");
    assert b[..43] == a[..43];
    if |a| == 44 {
      NotEnded(a);
      assert a == a[..43] + "~";
    }
  }

  /** No other seed is shown like this one, exactly under that condition. */
  lemma SeedToldIff(a: string)
    ensures SeedTold(a) <==> forall b: string :: SeedText(b) == SeedText(a) ==> b == a
  {
    if SeedTold(a) {
      forall b: string | SeedText(b) == SeedText(a) ensures b == a {
        SeedIsTold(a, b);
      }
    } else if |a| < 44 || (|a| == 44 && '\0' in a) {
      EndedTwin(a);
    } else {
      CutTwin(a);
    }
  }

  /** A title is shown whole exactly up to 31 characters. */
  lemma TitleWhole(title: cstring)
    ensures Shown(title, TITLE_SIZE) == title <==> |title| <= 31
  {
  }

  // ---- Keys that are abridged ----

  lemma AlphabetHasNoPoint(ds: seq<nat>)
    requires AreDigits(ds, 58)
    ensures '.' !in Alpha(ds)
  {
    forall i | 0 <= i < |ds| ensures Alpha(ds)[i] != '.' { AlphabetIndex(ds[i]); }
  }

  lemma AbridgedParts(s: string)
    requires |s| >= PUBKEY_SHORT
    ensures var t := Abridged(s, SUMMARY_LENGTH, SUMMARY_LENGTH);
      && |t| == 16 && t[..7] == s[..7] && t[9..] == s[|s| - 7..] && t[7] == '.' && t[8] == '.'
  {
  }

  lemma AbridgedAlike(s: string, t: string)
    requires |s| >= PUBKEY_SHORT && |t| >= PUBKEY_SHORT
    ensures Abridged(s, SUMMARY_LENGTH, SUMMARY_LENGTH) == Abridged(t, SUMMARY_LENGTH, SUMMARY_LENGTH) <==>
      s[..7] == t[..7] && s[|s| - 7..] == t[|t| - 7..]
  {
    AbridgedParts(s);
    AbridgedParts(t);
  }

  /** Equal keys, or keys whose texts have the same two ends. */
  predicate KeysLookAlike(a: key32, b: key32)
  {
    var s, t := Encoded(a), Encoded(b);
    a == b || (|s| > 16 && |t| > 16 && s[..7] == t[..7] && s[|s| - 7..] == t[|t| - 7..])
  }

  /** Exactly these keys look alike when they are abridged. */
  lemma KeysAlike(title: cstring, a: key32, b: key32)
    ensures TextOf(Key(title, a), false) == TextOf(Key(title, b), false) <==> KeysLookAlike(a, b)
  {
    var s, t := Encoded(a), Encoded(b);
    AlphabetHasNoPoint(Digits58(a));
    AlphabetHasNoPoint(Digits58(b));
    if s == t {
      Injective(a, b);
    }
    if |s| > 16 && |t| > 16 {
      AbridgedAlike(s, t);
    } else if |s| > 16 {
      AbridgedParts(s);
      assert '.' in Abridged(s, 7, 7);
    } else if |t| > 16 {
      AbridgedParts(t);
      assert '.' in Abridged(t, 7, 7);
    }
  }

  lemma AlphaSlice(ds: seq<nat>, i: nat, j: nat)
    requires AreDigits(ds, 58) && i <= j <= |ds|
    ensures Alpha(ds)[i..j] == Alpha(ds[i..j])
  {
  }

  lemma EndsOfTexts(a: seq<nat>, b: seq<nat>)
    requires AreDigits(a, 58) && AreDigits(b, 58) && SameEnds(a, b)
    ensures Alpha(a)[..7] == Alpha(b)[..7] && Alpha(a)[|a| - 7..] == Alpha(b)[|b| - 7..]
  {
    AlphaSlice(a, 0, 7);
    AlphaSlice(b, 0, 7);
    AlphaSlice(a, |a| - 7, |a|);
    AlphaSlice(b, |b| - 7, |b|);
  }

  /** Abridged, every key looks like another one. */
  lemma ShortKeyTwin(title: cstring, a: key32) returns (b: key32)
    ensures b != a && TextOf(Key(title, b), false) == TextOf(Key(title, a), false)
  {
    b := KeyTwin(a);
    EndsOfTexts(Digits58(a), Digits58(b));
    KeysAlike(title, b, a);
  }

  // ---- Texts that look alike ----

  /** Seeds that are too long look alike if they start alike. */
  lemma SeedsCut(title: cstring, a: string, b: string)
    requires |a| >= 45 && |b| >= 45 && a[..43] == b[..43]
    ensures TextOf(Sized(title, a), true) == TextOf(Sized(title, b), true)
  {
    ShownAlike(a, b, TEXT_BUFFER_LENGTH);
  }

  /** What comes behind a NUL is not shown. */
  lemma SeedEnds(title: cstring, a: string, b: string)
    requires '\0' !in a && |a| + 1 + |b| < TEXT_BUFFER_LENGTH
    ensures TextOf(Sized(title, a + "\0" + b), true) == TextOf(Sized(title, a), true) == Some(a)
  {
    var s := a + "\0" + b;
    assert s[..|a|] == a && s[|a|] == '\0';
    TerminatedIs(s, |a|);
    NotEnded(a);
  }

  function ZeroKey(): key32
  {
    seq(32, _ => 0)
  }

  /** Abridged, some key looks like the all-zero one, which is the address of the system program. */
  lemma KeyClash(title: cstring)
    ensures exists key: key32 ::
      key != ZeroKey() && TextOf(Key(title, key), false) == TextOf(Key(title, ZeroKey()), false)
  {
    var key := ShortKeyTwin(title, ZeroKey());
  }

  // ---- Token amounts ----

  /** Amounts that would take fewer decimals, or that leave room for one more, have another form. */
  predicate TokensTold(value: u64, decimals: byte)
  {
    (decimals == 0 || value % 10 != 0) && (10 * value >= TWO_64 || decimals >= 42)
  }

  lemma PaddedFits(value: u64, decimals: byte)
    requires decimals < 42
    ensures |Padded(value, decimals + 1)| <= 42
  {
    var m := if decimals + 1 > 20 then decimals + 1 else 20;
    TwentyDigits();
    PowUp(20, m);
    PaddedShort(value, decimals + 1, m);
  }

  lemma {:induction false} PowUp(m: nat, n: nat)
    requires m <= n
    ensures Pow(10, m) <= Pow(10, n)
    decreases n - m
  {
    if m < n {
      PowUp(m, n - 1);
      MulMono(1, 10, Pow(10, n - 1));
    }
  }

  /** Both are displayed and are the same number of the same tokens. */
  lemma TokensAlike(title: cstring, v: u64, x: cstring, d: byte, w: u64, y: cstring, e: byte)
    requires TextOf(TokenItem(title, v, x, d), true).Some? && TextOf(TokenItem(title, w, y, e), true).Some?
    ensures TextOf(TokenItem(title, v, x, d), true) == TextOf(TokenItem(title, w, y, e), true) <==>
      x == y && v * Pow(10, e) == w * Pow(10, d)
  {
    AssetsAlike(v, d, x, w, e, y);
  }

  lemma ShownDecimals(a: Line, long: bool)
    requires a.TokenItem? && TextOf(a, long).Some?
    ensures a.decimals <= 42
  {
  }

  lemma TimesTen(v: nat, m: nat)
    requires m > 0
    ensures v * Pow(10, m) % 10 == 0 && v * Pow(10, m) >= 10 * v
  {
    TenTimes(v, m);
    PowPos(10, m - 1);
    MulMono(1, Pow(10, m - 1), v);
  }

  lemma TokensAreTold(v: u64, d: byte, w: u64, e: byte)
    requires TokensTold(v, d) && e <= 42 && v * Pow(10, e) == w * Pow(10, d)
    ensures w == v && e == d
  {
    if d < e {
      ScaledBy(v, d, w, e);
      TimesTen(v, e - d);
    } else if e < d {
      ScaledBy(w, e, v, d);
      TimesTen(w, d - e);
    } else {
      PowPos(10, d);
      Cancel(v, w, Pow(10, d));
    }
  }

  lemma OneMore(v: nat, d: nat)
    ensures v * Pow(10, d + 1) == 10 * v * Pow(10, d)
  {
    TenTimes(v, d + 1);
    MulAssoc(10, v, Pow(10, d));
  }

  /** The unstripped digits fit the display. */
  predicate DigitsFit(v: nat, d: nat)
  {
    |Padded(v, d + 1)| + 1 < TEXT_BUFFER_LENGTH
  }

  lemma TokenTextIs(title: cstring, v: u64, x: cstring, d: byte, t: string, long: bool)
    requires t == AssetText(v, Some(x), d)
    ensures TextOf(TokenItem(title, v, x, d), long) ==
      if DigitsFit(v, d) && |t| < TEXT_BUFFER_LENGTH then Some(t) else None
  {
  }

  lemma TenfoldFits(v: u64, w: u64, d: byte)
    requires w == 10 * v && d < 255
    ensures DigitsFit(w, d + 1) ==> DigitsFit(v, d)
    ensures d < 42 ==> DigitsFit(w, d + 1) && DigitsFit(v, d)
  {
    PaddedTen(v, d + 1);
    if d < 42 {
      PaddedFits(v, d);
    }
  }

  /** The same number with a decimal more has the same text, if there is one. */
  lemma TenfoldTwin(title: cstring, v: u64, w: u64, x: cstring, d: byte, long: bool)
    requires w == 10 * v && d < 255
    requires d < 42 || TextOf(TokenItem(title, w, x, d + 1), long).Some?
    ensures TextOf(TokenItem(title, w, x, d + 1), long) == TextOf(TokenItem(title, v, x, d), long)
  {
    var t := AssetText(v, Some(x), d);
    OneMore(v, d);
    AssetsAlike(v, d, x, w, d + 1, x);
    TenfoldFits(v, w, d);
    TokenTextIs(title, v, x, d, t, long);
    TokenTextIs(title, w, x, d + 1, t, long);
  }

  // ---- What a text means ----

  /** A canonical number that is `n` divided by ten to the `decimals`. */
  ghost predicate IsNumber(u: string, n: nat, decimals: nat)
  {
    CanonicalAmount(u) && |FractionDigits(u)| <= decimals && Units(u, decimals) == n
  }

  /** The text, read by a reader of its kind, is the value; texts and seeds as long as they fit. */
  ghost predicate Means(a: Line, t: string, long: bool)
  {
    match a
    case Amount(_, lamports) => exists u :: t == u + " SOL" && IsNumber(u, lamports, 9)
    case TokenItem(_, value, symbol, decimals) => exists u :: t == u + " " + symbol && IsNumber(u, value, decimals)
    case Signed(_, n) => IsSigned(t) && ParseSigned(t) == n
    case Unsigned(_, n) => Canonical(t) && Value(Parse(t), 10) == n
    case Key(_, key) => long ==> Decoded(t) == key
    case Hash(_, hash) => Decoded(t) == hash
    case Sized(_, text) => '\0' !in text && |text| <= 44 ==> t == text
    case Text(_, content) => |content| <= 44 ==> t == content
    case Timestamp(_, seconds) => Printable(seconds) ==> |t| == 19 && ReadStamp(t) == seconds
  }

  lemma AmountMeans(title: cstring, lamports: u64, long: bool)
    ensures Means(Amount(title, lamports), SolText(lamports), long)
  {
    SolMeans(lamports);
    assert IsNumber(AmountText(lamports, 9), lamports, 9);
  }

  lemma TokenMeans(title: cstring, value: u64, symbol: cstring, decimals: byte, long: bool)
    ensures Means(TokenItem(title, value, symbol, decimals), AssetText(value, Some(symbol), decimals), long)
  {
    AmountRoundTrip(value, decimals);
    assert IsNumber(AmountText(value, decimals), value, decimals);
  }

  lemma BytesMean(a: Line, long: bool)
    requires a.Key? || a.Hash?
    ensures Means(a, TextOf(a, long).value, long)
  {
    if a.Key? {
      Base58.RoundTrip(a.key);
    } else {
      Base58.RoundTrip(a.hash);
    }
  }

  lemma StampMeans(title: cstring, seconds: i64, long: bool)
    requires TextFor(seconds).Some?
    ensures Means(Timestamp(title, seconds), TextFor(seconds).value, long)
  {
    RightIff(seconds);
  }

  lemma SeedMeans(title: cstring, text: string, long: bool)
    ensures Means(Sized(title, text), Terminated(Shown(text, TEXT_BUFFER_LENGTH)), long)
  {
    if '\0' !in text && |text| <= 44 {
      NotEnded(text);
    }
  }

  /** Whatever is displayed means the value of its item. */
  lemma TextMeans(a: Line, long: bool)
    requires TextOf(a, long).Some?
    ensures Means(a, TextOf(a, long).value, long)
  {
    match a
    case Amount(title, lamports) => AmountMeans(title, lamports, long);
    case TokenItem(title, value, symbol, decimals) => TokenMeans(title, value, symbol, decimals, long);
    case Signed(_, n) => SignedRoundTrip(n);
    case Unsigned(_, n) => DecimalTextValue(n);
    case Key(_, _) => BytesMean(a, long);
    case Hash(_, _) => BytesMean(a, long);
    case Sized(title, text) => SeedMeans(title, text, long);
    case Text(_, _) =>
    case Timestamp(title, seconds) => StampMeans(title, seconds, long);
  }

  // ---- Items ----

  /** Two items of one kind with values that are displayed alike. */
  predicate ItemsLookAlike(a: Line, b: Line, long: bool)
    requires KindOf(a) == KindOf(b)
  {
    match a
    case Amount(_, lamports) => lamports == b.lamports
    case TokenItem(_, value, symbol, decimals) =>
      symbol == b.symbol && value * Pow(10, b.decimals) == b.value * Pow(10, decimals)
    case Signed(_, n) => n == b.i64
    case Unsigned(_, n) => n == b.u64
    case Key(_, key) => if long then key == b.key else KeysLookAlike(key, b.key)
    case Hash(_, hash) => hash == b.hash
    case Sized(_, text) => SeedText(text) == SeedText(b.text)
    case Text(_, content) => TextsAlike(content, b.content, TEXT_BUFFER_LENGTH)
    case Timestamp(_, seconds) =>
      && DayShown(DayNumberOf(seconds)) == DayShown(DayNumberOf(b.seconds))
      && Since(seconds) % 86400 == Since(b.seconds) % 86400
  }

  lemma NumbersAlike(a: Line, b: Line)
    requires KindOf(a) == KindOf(b) && (a.Amount? || a.Signed? || a.Unsigned?)
    ensures TextOf(a, true) == TextOf(b, true) <==> ItemsLookAlike(a, b, true)
  {
    match a
    case Amount(_, lamports) =>
      if SolText(lamports) == SolText(b.lamports) {
        AssetInjective(lamports, b.lamports, Some(SOL), SOL_DECIMALS);
      }
    case Signed(_, n) =>
      SignedRoundTrip(n);
      SignedRoundTrip(b.i64);
    case Unsigned(_, n) =>
      DecimalTextUnique(n, DecimalText(b.u64));
      DecimalTextUnique(b.u64, DecimalText(b.u64));
  }

  lemma BytesAlike(a: Line, b: Line, long: bool)
    requires KindOf(a) == KindOf(b) && (a.Key? || a.Hash?)
    ensures TextOf(a, long) == TextOf(b, long) <==> ItemsLookAlike(a, b, long)
  {
    match a
    case Key(title, key) =>
      if !long {
        KeysAlike(title, key, b.key);
      } else if Encoded(key) == Encoded(b.key) {
        Injective(key, b.key);
      }
    case Hash(_, hash) =>
      if Encoded(hash) == Encoded(b.hash) {
        Injective(hash, b.hash);
      }
  }

  lemma StringsAlike(a: Line, b: Line)
    requires KindOf(a) == KindOf(b) && (a.Sized? || a.Text?)
    ensures TextOf(a, true) == TextOf(b, true) <==> ItemsLookAlike(a, b, true)
  {
    match a
    case Sized(_, text) =>
      SeedShown(text);
      SeedShown(b.text);
    case Text(_, content) => ShownAlike(content, b.content, TEXT_BUFFER_LENGTH);
  }

  lemma TitleUnread(title: cstring, other: cstring, v: u64, x: cstring, d: byte, long: bool)
    ensures TextOf(TokenItem(title, v, x, d), long) == TextOf(TokenItem(other, v, x, d), long)
  {
  }

  lemma TokenItemsAlike(a: Line, b: Line)
    requires a.TokenItem? && b.TokenItem?
    requires TextOf(a, true).Some? && TextOf(b, true).Some?
    ensures TextOf(a, true) == TextOf(b, true) <==> ItemsLookAlike(a, b, true)
  {
    var c := TokenItem(a.title, b.value, b.symbol, b.decimals);
    TitleUnread(a.title, b.title, b.value, b.symbol, b.decimals, true);
    assert TextOf(b, true) == TextOf(c, true);
    TokensAlike(a.title, a.value, a.symbol, a.decimals, b.value, b.symbol, b.decimals);
  }

  lemma TimestampsAlike(a: Line, b: Line)
    requires a.Timestamp? && b.Timestamp?
    requires TextOf(a, true).Some? && TextOf(b, true).Some?
    ensures TextOf(a, true) == TextOf(b, true) <==> ItemsLookAlike(a, b, true)
  {
    TimesAlike(a.seconds, b.seconds);
  }

  lemma OnlyKeysAbridged(a: Line, long: bool)
    requires !a.Key?
    ensures TextOf(a, long) == TextOf(a, true)
  {
  }

  /** Two items of one kind have the same text exactly if their values look alike. */
  lemma ItemsAlike(a: Line, b: Line, long: bool)
    requires KindOf(a) == KindOf(b) && TextOf(a, long).Some? && TextOf(b, long).Some?
    ensures TextOf(a, long) == TextOf(b, long) <==> ItemsLookAlike(a, b, long)
  {
    if a.Key? || a.Hash? {
      BytesAlike(a, b, long);
    } else {
      OnlyKeysAbridged(a, long);
      OnlyKeysAbridged(b, long);
      if a.Amount? || a.Signed? || a.Unsigned? {
        NumbersAlike(a, b);
      } else if a.Sized? || a.Text? {
        StringsAlike(a, b);
      } else if a.TokenItem? {
        TokenItemsAlike(a, b);
      } else {
        TimestampsAlike(a, b);
      }
    }
  }

  // ---- What one item tells ----

  /** The value can be told from the text. */
  predicate Told(item: Line, long: bool)
  {
    match item
    case TokenItem(_, value, _, decimals) => TokensTold(value, decimals)
    case Key(_, _) => long
    case Sized(_, text) => SeedTold(text)
    case Text(_, content) => TextTold(content)
    case Timestamp(_, _) => false
    case _ => true
  }

  lemma TextIsTold(a: Line, b: Line)
    requires a.Text? && b.Text? && a.title == b.title && Told(a, true)
    requires ItemsLookAlike(a, b, true)
    ensures b == a
  {
  }

  lemma TokenIsTold(a: Line, b: Line)
    requires a.TokenItem? && b.TokenItem? && a.title == b.title && TokensTold(a.value, a.decimals)
    requires b.decimals <= 42 && ItemsLookAlike(a, b, true)
    ensures b == a
  {
    TokensAreTold(a.value, a.decimals, b.value, b.decimals);
  }

  lemma StringIsTold(a: Line, b: Line)
    requires KindOf(a) == KindOf(b) && a.title == b.title && (a.Sized? || a.Text?) && Told(a, true)
    requires ItemsLookAlike(a, b, true)
    ensures b == a
  {
    if a.Sized? {
      SeedIsTold(a.text, b.text);
    } else {
      TextIsTold(a, b);
    }
  }

  lemma ValueIsTold(a: Line, b: Line, long: bool)
    requires KindOf(a) == KindOf(b) && a.title == b.title && Told(a, long) && ItemsLookAlike(a, b, long)
    requires !a.TokenItem? && !a.Sized? && !a.Text?
    ensures b == a
  {
  }

  lemma ItemIsTold(a: Line, b: Line, long: bool)
    requires KindOf(a) == KindOf(b) && a.title == b.title && Told(a, long)
    requires TextOf(a, long).Some? && TextOf(b, long) == TextOf(a, long)
    ensures b == a
  {
    ItemsAlike(a, b, long);
    if a.TokenItem? {
      ShownDecimals(b, long);
      TokenIsTold(a, b);
    } else if a.Sized? || a.Text? {
      StringIsTold(a, b);
    } else {
      ValueIsTold(a, b, long);
    }
  }

  lemma StringTwin(a: Line) returns (b: Line)
    requires (a.Sized? || a.Text?) && !Told(a, true)
    ensures KindOf(b) == KindOf(a) && b.title == a.title && b != a && TextOf(b, true) == TextOf(a, true)
  {
    if a.Sized? {
      SeedToldIff(a.text);
      var text :| SeedText(text) == SeedText(a.text) && text != a.text;
      b := Sized(a.title, text);
      SeedShown(text);
      SeedShown(a.text);
    } else {
      TextToldIff(a.content);
      var content: cstring :| Shown(content, TEXT_BUFFER_LENGTH) == Shown(a.content, TEXT_BUFFER_LENGTH)
        && content != a.content;
      b := Text(a.title, content);
    }
  }

  /** Another item of the same kind with the same title and text. */
  predicate IsTwin(a: Line, b: Line, long: bool)
  {
    KindOf(b) == KindOf(a) && b.title == a.title && b != a && TextOf(b, long) == TextOf(a, long)
  }

  lemma TokenTwin(title: cstring, v: u64, x: cstring, d: byte, long: bool) returns (b: Line)
    requires TextOf(TokenItem(title, v, x, d), long).Some? && !TokensTold(v, d)
    ensures IsTwin(TokenItem(title, v, x, d), b, long)
  {
    if d > 0 && v % 10 == 0 {
      b := TokenItem(title, v / 10, x, d - 1);
      TenfoldTwin(title, v / 10, v, x, d - 1, long);
    } else {
      b := TokenItem(title, 10 * v, x, d + 1);
      TenfoldTwin(title, v, 10 * v, x, d, long);
    }
  }

  lemma TokenItemTwin(a: Line, long: bool) returns (b: Line)
    requires a.TokenItem? && !Told(a, long) && TextOf(a, long).Some?
    ensures IsTwin(a, b, long)
  {
    b := TokenTwin(a.title, a.value, a.symbol, a.decimals, long);
  }

  lemma KeyItemTwin(a: Line, long: bool) returns (b: Line)
    requires a.Key? && !Told(a, long)
    ensures IsTwin(a, b, long)
  {
    var other := ShortKeyTwin(a.title, a.key);
    b := Key(a.title, other);
  }

  lemma TimeItemTwin(a: Line, long: bool) returns (b: Line)
    requires a.Timestamp?
    ensures IsTwin(a, b, long)
  {
    var other := TimeTwin(a.seconds);
    b := Timestamp(a.title, other);
  }

  lemma StringItemTwin(a: Line, long: bool) returns (b: Line)
    requires (a.Sized? || a.Text?) && !Told(a, long)
    ensures IsTwin(a, b, long)
  {
    b := StringTwin(a);
    OnlyKeysAbridged(a, long);
    OnlyKeysAbridged(b, long);
  }

  lemma ItemTwin(a: Line, long: bool) returns (b: Line)
    requires !Told(a, long) && TextOf(a, long).Some?
    ensures IsTwin(a, b, long)
  {
    if a.TokenItem? {
      b := TokenItemTwin(a, long);
    } else if a.Key? {
      b := KeyItemTwin(a, long);
    } else if a.Timestamp? {
      b := TimeItemTwin(a, long);
    } else {
      b := StringItemTwin(a, long);
    }
  }

  // ---- Screens ----

  datatype Screen = Screen(title: string, text: Option<string>)

  function ScreenOf(item: Line, long: bool): Screen
  {
    Screen(Shown(item.title, TITLE_SIZE), TextOf(item, long))
  }

  /** Under titles that tell the kind, two screens are the same exactly if title and values look alike. */
  lemma ScreensAlike(a: Line, b: Line, long: bool)
    requires Named(a) && Named(b) && TextOf(a, long).Some? && TextOf(b, long).Some?
    ensures ScreenOf(a, long) == ScreenOf(b, long) <==>
      a.title == b.title && KindOf(a) == KindOf(b) && ItemsLookAlike(a, b, long)
  {
    if KindOf(a) == KindOf(b) {
      ItemsAlike(a, b, long);
    }
  }

  /** No other item has this screen, exactly if the value can be told from the text. */
  lemma ScreenToldIff(a: Line, long: bool)
    requires Named(a) && TextOf(a, long).Some?
    ensures Told(a, long) <==> forall b: Line :: Named(b) && ScreenOf(b, long) == ScreenOf(a, long) ==> b == a
  {
    if Told(a, long) {
      forall b: Line | Named(b) && ScreenOf(b, long) == ScreenOf(a, long) ensures b == a {
        ItemIsTold(a, b, long);
      }
    } else {
      var b := ItemTwin(a, long);
      assert Named(b) && ScreenOf(b, long) == ScreenOf(a, long);
    }
  }
}
