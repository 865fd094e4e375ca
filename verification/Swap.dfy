/** Signing for an exchange: src/swap and check_swap_validity. */
module Swap {
  import opened Bytes
  import opened Text
  import opened Radix
  import opened TokenAmount
  import opened Base58
  import opened Strings
  import opened Summary
  import opened Display

  const ADDRESS_SIZE: nat := 45
  const PRINTABLE_AMOUNT_SIZE: nat := 50

  // ---- What was validated ----

  datatype Validated = Validated(amount: u64, recipient: string)

  lemma ShiftIn(value: nat, b: byte, n: nat)
    requires n < 8 && value < Pow(256, n)
    ensures value * 256 + b < TWO_64 && value * 256 % TWO_64 == value * 256
  {
    assert Pow(256, 8) == TWO_64;
    PowGrows(n, 7);
    assert Pow(256, 7) * 256 == TWO_64;
  }

  lemma {:induction false} PowGrows(n: nat, m: nat)
    requires n <= m
    ensures Pow(256, n) <= Pow(256, m)
    decreases m
  {
    if n < m {
      PowGrows(n, m - 1);
    }
  }

  lemma BytesBelow(s: bytes)
    ensures AreDigits(s, 256)
  {
  }

  /** A big-endian number of at most eight bytes. */
  method SwapStrToU64(src: bytes) returns (ok: bool, value: u64)
    ensures ok <==> |src| <= 8
    ensures ok ==> value == Value(src, 256)
  {
    value := 0;
    if |src| > 8 {
      return false, 0;
    }
    var i := 0;
    while i < |src|
      invariant 0 <= i <= |src|
      invariant value == Value(src[..i], 256)
    {
      assert src[..i + 1] == src[..i] + [src[i]];
      ValueSnoc(src[..i], src[i], 256);
      BytesBelow(src[..i]);
      ValueBound(src[..i], 256);
      ShiftIn(value, src[i], i);
      value := value * 256 % TWO_64 + src[i];
      i := i + 1;
    }
    assert src[..i] == src;
    ok := true;
  }

  /** What is kept of an address: strlcpy leaves off what does not fit. */
  function Kept(address: string): (recipient: string)
    ensures |recipient| < ADDRESS_SIZE
    ensures recipient == address <==> |address| < ADDRESS_SIZE
  {
    if |address| < ADDRESS_SIZE then address else address[..ADDRESS_SIZE - 1]
  }

  /** The address of a key is kept as it is. */
  lemma KeyKept(key: key32)
    ensures Kept(Encoded(key)) == Encoded(key)
  {
    KeyFits(key);
  }

  // ---- What is compared ----

  predicate IsAmountOf(item: Item, v: Validated)
  {
    item == Amount("Transfer", v.amount)
  }

  predicate IsRecipientOf(item: Item, v: Validated)
  {
    item.Key? && item.title == "Recipient" && Encoded(item.key) == v.recipient
  }

  /** The printed recipient is the key that was agreed on, and no other. */
  lemma RecipientFound(item: Item, v: Validated, to: key32)
    requires item.Key? && v.recipient == Encoded(to)
    ensures IsRecipientOf(item, v) <==> item == Key("Recipient", to)
  {
    if Encoded(item.key) == Encoded(to) {
      Injective(item.key, to);
    }
  }

  lemma ShownIs(s: string, t: string, n: nat)
    requires |t| + 1 < n
    ensures Shown(s, n) == t <==> s == t
  {
  }

  lemma ShownPlain(s: string, n: nat)
    requires '\0' !in s && n >= 1
    ensures '\0' !in Shown(s, n)
  {
  }

  lemma SolTextPlain(lamports: nat)
    ensures '\0' !in SolText(lamports)
  {
    PlainAmount(lamports, SOL_DECIMALS);
  }

  lemma AmountFound(item: Item, v: Validated)
    requires item.Amount?
    ensures Shown(item.title, TITLE_SIZE) == "Transfer" && SolText(item.lamports) == SolText(v.amount) <==>
      IsAmountOf(item, v)
  {
    ShownIs(item.title, "Transfer", TITLE_SIZE);
    if SolText(item.lamports) == SolText(v.amount) {
      AssetInjective(item.lamports, v.amount, Some(SOL), SOL_DECIMALS);
    }
  }

  /** Compares the texts in the buffers; the item on display is the validated amount exactly when they agree. */
  method CheckSwapAmount(v: Option<Validated>, title: array<char>, text: array<char>, ghost item: Item)
    returns (ok: bool)
    requires item.Amount? && Holds(title, 0, Shown(item.title, TITLE_SIZE)) && Holds(text, 0, SolText(item.lamports))
    ensures ok <==> v.Some? && IsAmountOf(item, v.value)
  {
    if v.None? {
      return false;
    }
    AmountFound(item, v.value);
    ShownPlain(item.title, TITLE_SIZE);
    var shownTitle := ReadString(title, Shown(item.title, TITLE_SIZE));
    if shownTitle != "Transfer" {
      return false;
    }
    var buffer := new char[PRINTABLE_AMOUNT_SIZE];
    SolFits(v.value.amount);
    var rc, beyond := PrintAmount(v.value.amount, buffer, PRINTABLE_AMOUNT_SIZE);
    SolTextPlain(v.value.amount);
    SolTextPlain(item.lamports);
    var validated := ReadString(buffer, SolText(v.value.amount));
    var shown := ReadString(text, SolText(item.lamports));
    ok := shown == validated;
  }

  /** The same for the recipient, who is shown by the text of a key. */
  method CheckSwapRecipient(v: Option<Validated>, title: array<char>, text: array<char>, ghost item: Item)
    returns (ok: bool)
    requires item.Key? && Holds(title, 0, Shown(item.title, TITLE_SIZE)) && Holds(text, 0, Encoded(item.key))
    ensures ok <==> v.Some? && IsRecipientOf(item, v.value)
  {
    if v.None? {
      return false;
    }
    ShownIs(item.title, "Recipient", TITLE_SIZE);
    ShownPlain(item.title, TITLE_SIZE);
    var shownTitle := ReadString(title, Shown(item.title, TITLE_SIZE));
    if shownTitle != "Recipient" {
      return false;
    }
    NoNul(item.key);
    var shown := ReadString(text, Encoded(item.key));
    ok := v.value.recipient == shown;
  }

  // ---- The check ----

  /** Two steps, the amount and the recipient. */
  ghost predicate SwapMatches(s: Slots, v: Option<Validated>)
  {
    && v.Some? && |Steps(s)| == 2
    && var a, b := s[Steps(s)[0]], s[Steps(s)[1]];
       (IsAmountOf(a, v.value) && IsRecipientOf(b, v.value)) || (IsAmountOf(b, v.value) && IsRecipientOf(a, v.value))
  }

  /** What one step of the check finds. */
  ghost predicate StepFinds(item: Item, v: Option<Validated>, refused: bool, ok: bool)
  {
    && refused == !(item.Amount? || item.Key?)
    && (item.Amount? ==> ok == (v.Some? && IsAmountOf(item, v.value)))
    && (item.Key? ==> ok == (v.Some? && IsRecipientOf(item, v.value)))
  }

  /** One round of the loop: displays an item and compares what is displayed. */
  method CheckStep(summary: TransactionSummary, index: nat, ghost item: Item, kind: Kind, v: Option<Validated>,
      title: array<char>, text: array<char>)
    returns (refused: bool, ok: bool)
    requires summary.Valid() && title != text
    requires title.Length == TITLE_SIZE && text.Length == TEXT_BUFFER_LENGTH
    requires index < |Order(summary.Slots())| && item == summary.Slots()[Order(summary.Slots())[index]]
    requires item != Unset && kind == KindOf(item) && Displayable(item)
    modifies title, text
    ensures StepFinds(item, v, refused, ok)
  {
    var rc, beyond := DisplayItem(summary, index, true, title, text);
    refused, ok := false, false;
    if kind == KindAmount {
      ok := CheckSwapAmount(v, title, text, item);
    } else if kind == KindKey {
      ok := CheckSwapRecipient(v, title, text, item);
    } else {
      refused := true;
    }
  }

  lemma StepOfOrder(s: Slots, index: nat)
    requires s[PRIMARY] != Unset && index < |Steps(s)|
    ensures index < |Order(s)| && Order(s)[index] == Steps(s)[index] && s[Steps(s)[index]] != Unset
  {
    OrderAgrees(s);
    StepsAreUsedSlots(s);
    assert Steps(s)[index] in Steps(s);
  }

  /** Whether the last amount among the items is the one that was validated. */
  ghost predicate LastAmount(items: seq<Item>, v: Option<Validated>)
  {
    if items == [] then false
    else if items[|items| - 1].Amount? then v.Some? && IsAmountOf(items[|items| - 1], v.value)
    else LastAmount(items[..|items| - 1], v)
  }

  ghost predicate LastRecipient(items: seq<Item>, v: Option<Validated>)
  {
    if items == [] then false
    else if items[|items| - 1].Key? then v.Some? && IsRecipientOf(items[|items| - 1], v.value)
    else LastRecipient(items[..|items| - 1], v)
  }

  /** All items are amounts or keys, and the last of each kind is the right one. */
  ghost predicate Verdict(items: seq<Item>, v: Option<Validated>)
  {
    (forall k :: 0 <= k < |items| ==> items[k].Amount? || items[k].Key?) && LastAmount(items, v)
      && LastRecipient(items, v)
  }

  lemma VerdictOfTwo(a: Item, b: Item, v: Option<Validated>)
    ensures Verdict([a, b], v) <==>
      && v.Some?
      && ((IsAmountOf(a, v.value) && IsRecipientOf(b, v.value))
        || (IsAmountOf(b, v.value) && IsRecipientOf(a, v.value)))
  {
    var items := [a, b];
    LastOfMore(items, 0, v);
    LastOfMore(items, 1, v);
    assert items[..0] == [] && items[..2] == items;
    assert items[0] == a && items[1] == b;
  }

  lemma LastOfMore(items: seq<Item>, i: nat, v: Option<Validated>)
    requires i < |items|
    ensures LastAmount(items[..i + 1], v) ==
      if items[i].Amount? then v.Some? && IsAmountOf(items[i], v.value) else LastAmount(items[..i], v)
    ensures LastRecipient(items[..i + 1], v) ==
      if items[i].Key? then v.Some? && IsRecipientOf(items[i], v.value) else LastRecipient(items[..i], v)
  {
    assert items[..i + 1][..i] == items[..i];
  }

  /** The flags after `i` steps, none of them refused. */
  ghost predicate Tally(items: seq<Item>, i: nat, v: Option<Validated>, amountOk: bool, recipientOk: bool)
    requires i <= |items|
  {
    && (forall k :: 0 <= k < i ==> items[k].Amount? || items[k].Key?)
    && amountOk == LastAmount(items[..i], v) && recipientOk == LastRecipient(items[..i], v)
  }

  lemma TallyStep(items: seq<Item>, i: nat, v: Option<Validated>, amountOk: bool, recipientOk: bool, refused: bool,
      ok: bool)
    requires i < |items| && Tally(items, i, v, amountOk, recipientOk) && StepFinds(items[i], v, refused, ok)
    ensures refused ==> !Verdict(items, v)
    ensures !refused ==>
      Tally(items, i + 1, v, if items[i].Amount? then ok else amountOk, if items[i].Amount? then recipientOk else ok)
  {
    LastOfMore(items, i, v);
  }

  lemma TallyEnds(items: seq<Item>, v: Option<Validated>, amountOk: bool, recipientOk: bool)
    requires Tally(items, |items|, v, amountOk, recipientOk)
    ensures Verdict(items, v) <==> amountOk && recipientOk
  {
    assert items[..|items|] == items;
  }

  /** The items are those on display, the kinds are theirs. */
  ghost predicate OnDisplay(s: Slots, items: seq<Item>)
  {
    && |items| <= |Order(s)|
    && forall i :: 0 <= i < |items| ==> items[i] == s[Order(s)[i]] && items[i] != Unset && Displayable(items[i])
  }

  /** One round of the loop with the flags that it keeps. */
  method NextStep(summary: TransactionSummary, i: nat, ghost items: seq<Item>, kind: Kind, v: Option<Validated>,
      title: array<char>, text: array<char>, amountBefore: bool, recipientBefore: bool)
    returns (refused: bool, amountOk: bool, recipientOk: bool)
    requires summary.Valid() && title != text
    requires title.Length == TITLE_SIZE && text.Length == TEXT_BUFFER_LENGTH
    requires OnDisplay(summary.Slots(), items) && i < |items| && kind == KindOf(items[i])
    requires Tally(items, i, v, amountBefore, recipientBefore)
    modifies title, text
    ensures refused ==> !Verdict(items, v)
    ensures !refused ==> Tally(items, i + 1, v, amountOk, recipientOk)
  {
    var ok;
    refused, ok := CheckStep(summary, i, items[i], kind, v, title, text);
    TallyStep(items, i, v, amountBefore, recipientBefore, refused, ok);
    amountOk, recipientOk := amountBefore, recipientBefore;
    if kind == KindAmount { amountOk := ok; } else { recipientOk := ok; }
  }

  /** The loop over the steps. */
  method CheckSteps(summary: TransactionSummary, kinds: array<Kind>, steps: nat, ghost items: seq<Item>,
      v: Option<Validated>, title: array<char>, text: array<char>)
    returns (valid: bool)
    requires summary.Valid() && title != text
    requires title.Length == TITLE_SIZE && text.Length == TEXT_BUFFER_LENGTH
    requires OnDisplay(summary.Slots(), items) && steps == |items| <= kinds.Length
    requires forall i :: 0 <= i < steps ==> kinds[i] == KindOf(items[i])
    modifies title, text
    ensures valid <==> Verdict(items, v)
  {
    var amountOk, recipientOk := false, false;
    var i: nat := 0;
    while i < steps
      invariant 0 <= i <= steps
      invariant Tally(items, i, v, amountOk, recipientOk)
    {
      var refused;
      refused, amountOk, recipientOk :=
        NextStep(summary, i, items, kinds[i], v, title, text, amountOk, recipientOk);
      if refused {
        return false;
      }
      i := i + 1;
    }
    TallyEnds(items, v, amountOk, recipientOk);
    valid := amountOk && recipientOk;
  }

  /** Two steps can both be displayed; with any other number of them the check displays nothing. */
  ghost predicate Showable(s: Slots)
  {
    |Steps(s)| == 2 ==> Displayable(s[Steps(s)[0]]) && Displayable(s[Steps(s)[1]])
  }

  lemma TwoOnDisplay(s: Slots, a: Item, b: Item)
    requires Showable(s) && s[PRIMARY] != Unset && |Steps(s)| == 2
    requires a == s[Steps(s)[0]] && b == s[Steps(s)[1]]
    ensures OnDisplay(s, [a, b])
  {
    StepOfOrder(s, 0);
    StepOfOrder(s, 1);
  }

  /** check_swap_validity, on the kinds that finalize listed. */
  method CheckSwapValidity(summary: TransactionSummary, kinds: array<Kind>, steps: nat, v: Option<Validated>,
      title: array<char>, text: array<char>)
    returns (valid: bool)
    requires summary.Valid() && title != text
    requires title.Length == TITLE_SIZE && text.Length == TEXT_BUFFER_LENGTH
    requires Showable(summary.Slots()) && summary.primary != Unset && steps == |Steps(summary.Slots())| <= kinds.Length
    requires forall i :: 0 <= i < steps ==> kinds[i] == KindOf(summary.Slots()[Steps(summary.Slots())[i]])
    modifies title, text
    ensures valid <==> SwapMatches(summary.Slots(), v)
  {
    if steps != 2 {
      return false;
    }
    ghost var s := summary.Slots();
    ghost var a, b := s[Steps(s)[0]], s[Steps(s)[1]];
    TwoOnDisplay(s, a, b);
    VerdictOfTwo(a, b, v);
    valid := CheckSteps(summary, kinds, steps, [a, b], v, title, text);
  }
}
