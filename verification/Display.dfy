/** Showing one item: libsol/transaction_summary.c:146-266. */
module Display {
  import opened Bytes
  import opened Text
  import opened Radix
  import opened Decimal
  import opened TokenAmount
  import opened Base58
  import opened Rfc3339
  import opened Strings
  import opened Summary
  import Infos
  import Printers

  const TEXT_BUFFER_LENGTH: nat := 45
  const SUMMARY_LENGTH: nat := 7
  const PUBKEY_SHORT: nat := SUMMARY_LENGTH + 2 + SUMMARY_LENGTH + 1

  // ---- How long the texts are ----

  lemma {:induction false} PaddedShort(n: nat, k: nat, m: nat)
    requires n < Pow(10, m) && k <= m
    ensures |Padded(n, k)| <= m
    decreases m
  {
    if m > 0 {
      PaddedShort(n / 10, if k > 0 then k - 1 else 0, m - 1);
    }
  }

  lemma TwentyDigits()
    ensures TWO_64 <= Pow(10, 20)
  {
    assert Pow(10, 4) == 10000;
    assert Pow(10, 8) == 1_0000_0000;
    assert Pow(10, 12) == 1_0000_0000_0000;
    assert Pow(10, 16) == 1_0000_0000_0000_0000;
    assert Pow(10, 20) == 1_0000_0000_0000_0000_0000;
  }

  /** No 64-bit amount takes more than 25 characters. */
  lemma SolFits(lamports: u64)
    ensures |Padded(lamports, SOL_DECIMALS + 1)| <= 20 && |SolText(lamports)| <= 25
  {
    TwentyDigits();
    PaddedShort(lamports, SOL_DECIMALS + 1, 20);
    RawLength(lamports, SOL_DECIMALS);
  }

  lemma NumberFits(n: int)
    requires -TWO_64 < n < TWO_64
    ensures |SignedText(n)| <= 21 && (n >= 0 ==> |DecimalText(n)| <= 20)
  {
    TwentyDigits();
    PaddedShort(if n < 0 then -n else n, 1, 20);
  }

  // ---- The kinds of items ----

  /** A key is shown whole or by its two ends. */
  method ShowKey(key: key32, long: bool, text: array<char>) returns (rc: int)
    requires text.Length == TEXT_BUFFER_LENGTH
    modifies text
    ensures rc == 0
    ensures Holds(text, 0,
      if long || |Encoded(key)| < PUBKEY_SHORT then Encoded(key)
        else Abridged(Encoded(key), SUMMARY_LENGTH, SUMMARY_LENGTH))
  {
    var tmp := new char[TEXT_BUFFER_LENGTH];
    var status := EncodeKey(key, tmp, TEXT_BUFFER_LENGTH);
    KeyFits(key);
    NoNul(key);
    var encoded := ReadString(tmp, Encoded(key));
    if long {
      rc := PrintString(encoded, text, TEXT_BUFFER_LENGTH);
    } else {
      rc := PrintSummary(encoded, text, PUBKEY_SHORT, SUMMARY_LENGTH, SUMMARY_LENGTH);
    }
  }

  /** The C string in a buffer. */
  method ReadString(buffer: array<char>, ghost t: string) returns (s: string)
    requires Holds(buffer, 0, t) && '\0' !in t
    ensures s == t
  {
    assert forall i :: 0 <= i < |t| ==> t[i] in t;
    var n := 0;
    while buffer[n] != '\0'
      invariant 0 <= n <= |t|
      decreases |t| - n
    {
      n := n + 1;
    }
    s := buffer[..n];
  }

  lemma NoNul(key: bytes)
    ensures '\0' !in Encoded(key)
  {
  }

  /** The text of an item; None when it cannot be shown. */
  function TextOf(item: Item, long: bool): Option<string>
  {
    match item
    case Unset => None
    case Amount(_, lamports) => Some(SolText(lamports))
    case TokenItem(_, value, symbol, decimals) =>
      var t := AssetText(value, Some(symbol), decimals);
      if |Padded(value, decimals + 1)| + 1 < TEXT_BUFFER_LENGTH && |t| < TEXT_BUFFER_LENGTH then Some(t) else None
    case Signed(_, n) => Some(SignedText(n))
    case Unsigned(_, n) => Some(DecimalText(n))
    case Key(_, key) =>
      if long || |Encoded(key)| < PUBKEY_SHORT then Some(Encoded(key))
      else Some(Abridged(Encoded(key), SUMMARY_LENGTH, SUMMARY_LENGTH))
    case Hash(_, hash) => Some(Encoded(hash))
    case Sized(_, t) => Some(Terminated(Shown(t, TEXT_BUFFER_LENGTH)))
    case Text(_, t) => Some(Shown(t, TEXT_BUFFER_LENGTH))
    case Timestamp(_, seconds) => TextFor(seconds)
  }

  // ---- What the display cannot take ----

  /** All items but one can be shown: token amounts with 44 decimals. */
  predicate Displayable(item: Item)
  {
    item.TokenItem? ==> item.decimals != TEXT_BUFFER_LENGTH - 1
  }

  /** An item is displayable exactly when printing its digits stays in the buffer. */
  lemma DisplayableIff(item: Item)
    requires item.TokenItem?
    ensures Displayable(item) <==>
      LastWrite(item.value, 0, item.decimals, TEXT_BUFFER_LENGTH) < TEXT_BUFFER_LENGTH
  {
    DigitLoopInside(item.value, item.decimals, TEXT_BUFFER_LENGTH);
  }

  /** A transfer with 44 decimals is printed into the summary, and showing it writes behind the buffer. */
  lemma OverrunReached(c: Printers.Config, t: Infos.TokenInfo)
    requires t.TransferChecked? && t.tokens.decimals == 44
    ensures var item := Printers.PrintToken(c, t).primary;
      item.TokenItem? && LastWrite(item.value, 0, item.decimals, TEXT_BUFFER_LENGTH) == TEXT_BUFFER_LENGTH
  {
    DigitLoopInside(t.tokens.amount, 44, TEXT_BUFFER_LENGTH);
  }

  // ---- The display ----

  method ShowNumber(item: Item, text: array<char>) returns (rc: int)
    requires item.Amount? || item.Signed? || item.Unsigned?
    requires text.Length == TEXT_BUFFER_LENGTH
    modifies text
    ensures rc == 0 && Holds(text, 0, TextOf(item, true).value)
  {
    match item
    case Amount(_, lamports) =>
      SolFits(lamports);
      var beyond;
      rc, beyond := PrintAmount(lamports, text, TEXT_BUFFER_LENGTH);
    case Signed(_, n) =>
      NumberFits(n);
      rc := PrintI64(n, text, 0, TEXT_BUFFER_LENGTH);
    case Unsigned(_, n) =>
      NumberFits(n);
      rc := PrintU64(n, text, 0, TEXT_BUFFER_LENGTH);
  }

  method ShowToken(item: Item, text: array<char>) returns (rc: int, beyond: bool)
    requires item.TokenItem? && text.Length == TEXT_BUFFER_LENGTH
    modifies text
    ensures beyond <==> !Displayable(item)
    ensures !beyond ==> (rc == 0 <==> TextOf(item, true).Some?)
    ensures !beyond && rc == 0 ==> Holds(text, 0, TextOf(item, true).value)
  {
    rc, beyond := PrintTokenAmount(item.value, Some(item.symbol), item.decimals, text, TEXT_BUFFER_LENGTH);
  }

  method ShowText(item: Item, text: array<char>) returns (rc: int)
    requires (item.Text? || item.Sized? || item.Hash?) && text.Length == TEXT_BUFFER_LENGTH
    modifies text
    ensures rc == 0 && Holds(text, 0, TextOf(item, true).value)
  {
    rc := 0;
    match item
    case Text(_, t) => var cut := PrintString(t, text, TEXT_BUFFER_LENGTH);
    case Sized(_, t) => var cut := PrintSizedString(t, text, TEXT_BUFFER_LENGTH);
    case Hash(_, hash) =>
      KeyFits(hash);
      var status := EncodeBase58(hash, text, TEXT_BUFFER_LENGTH);
  }

  /** The text of an item, when there is one, and its title; beyond tells that the text buffer was left. */
  method UpdateDisplay(item: Item, long: bool, title: array<char>, text: array<char>) returns (rc: int, beyond: bool)
    requires title != text
    requires title.Length == TITLE_SIZE && text.Length == TEXT_BUFFER_LENGTH
    modifies title, text
    ensures beyond <==> !Displayable(item)
    ensures !beyond ==> (rc == 0 <==> TextOf(item, long).Some?)
    ensures !beyond && rc == 0 ==> Holds(text, 0, TextOf(item, long).value)
    ensures !beyond && rc == 0 ==> item != Unset && Holds(title, 0, Shown(item.title, TITLE_SIZE))
    ensures beyond || rc != 0 ==> title[..] == old(title[..])
  {
    beyond := false;
    if item == Unset {
      rc := 1;
    } else if item.Amount? || item.Signed? || item.Unsigned? {
      rc := ShowNumber(item, text);
    } else if item.TokenItem? {
      rc, beyond := ShowToken(item, text);
    } else if item.Key? {
      rc := ShowKey(item.key, long, text);
    } else if item.Timestamp? {
      rc := Format(text, TEXT_BUFFER_LENGTH, item.seconds);
    } else {
      rc := ShowText(item, text);
    }
    if beyond || rc != 0 {
      return;
    }
    var cut := PrintString(item.title, title, TITLE_SIZE);
  }

  lemma NothingBehind(s: Slots, index: nat)
    requires s[PRIMARY] != Unset && |Steps(s)| <= index < |Order(s)|
    ensures s[Order(s)[index]] == Unset
  {
    OrderAgrees(s);
  }

  /** transaction_summary_display_item; behind the items that finalize announces there is nothing to show. */
  method DisplayItem(summary: TransactionSummary, index: nat, long: bool, title: array<char>, text: array<char>)
    returns (rc: int, beyond: bool)
    requires summary.Valid() && title != text
    requires title.Length == TITLE_SIZE && text.Length == TEXT_BUFFER_LENGTH
    modifies title, text
    ensures var s := old(summary.Slots());
      if index >= |Order(s)| then rc != 0 && !beyond
      else
        var item := s[Order(s)[index]];
        && (beyond <==> !Displayable(item))
        && (!beyond ==> (rc == 0 <==> TextOf(item, long).Some?))
        && (!beyond && rc == 0 ==> Holds(text, 0, TextOf(item, long).value))
        && (!beyond && rc == 0 ==> item != Unset && Holds(title, 0, Shown(item.title, TITLE_SIZE)))
    ensures var s := old(summary.Slots()); s[PRIMARY] != Unset && index >= |Steps(s)| ==> rc != 0 && !beyond
  {
    ghost var s := summary.Slots();
    var slot := summary.FindItem(index);
    if slot.None? {
      return 1, false;
    }
    var item := summary.At(slot.value);
    if s[PRIMARY] != Unset && index >= |Steps(s)| {
      NothingBehind(s, index);
    }
    rc, beyond := UpdateDisplay(item, long, title, text);
  }
}
