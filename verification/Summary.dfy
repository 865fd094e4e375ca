/** libsol/transaction_summary.c: write-once slots, two walks. */
module Summary {
  import opened Bytes

  const NUM_GENERAL_ITEMS: nat := 11

  // The buffer that a title is displayed from.
  const TITLE_SIZE: nat := 32

  datatype Item =
    | Unset
    | Amount(title: cstring, lamports: u64)
    | TokenItem(title: cstring, value: u64, symbol: cstring, decimals: byte)
    | Signed(title: cstring, i64: i64)
    | Unsigned(title: cstring, u64: u64)
    | Key(title: cstring, key: key32)
    | Hash(title: cstring, hash: key32)
    | Sized(title: cstring, text: string)
    | Text(title: cstring, content: cstring)
    | Timestamp(title: cstring, seconds: i64)

  /** An item that is set. */
  type Line = item: Item | item != Unset witness Text("", "")

  datatype Kind =
    KindNone | KindAmount | KindToken | KindSigned | KindUnsigned | KindKey | KindHash | KindSized | KindText
    | KindTimestamp

  function KindOf(item: Item): Kind
  {
    match item
    case Unset => KindNone
    case Amount(_, _) => KindAmount
    case TokenItem(_, _, _, _) => KindToken
    case Signed(_, _) => KindSigned
    case Unsigned(_, _) => KindUnsigned
    case Key(_, _) => KindKey
    case Hash(_, _) => KindHash
    case Sized(_, _) => KindSized
    case Text(_, _) => KindText
    case Timestamp(_, _) => KindTimestamp
  }

  // The slots are numbered in order of display; the general ones are 1 to NUM_GENERAL_ITEMS.
  const PRIMARY: nat := 0
  const NONCE_ACCOUNT: nat := NUM_GENERAL_ITEMS + 1
  const NONCE_AUTHORITY: nat := NUM_GENERAL_ITEMS + 2
  const FEE_PAYER: nat := NUM_GENERAL_ITEMS + 3
  const MAX_SUMMARY_ITEMS: nat := NUM_GENERAL_ITEMS + 4

  type Slots = s: seq<Item> | |s| == MAX_SUMMARY_ITEMS witness seq(MAX_SUMMARY_ITEMS, _ => Unset)

  const EMPTY: Slots := seq(MAX_SUMMARY_ITEMS, _ => Unset)

  // ---- The order of display ----

  /** The numbers of the used slots from `lo` up to `hi`. */
  function Used(s: Slots, lo: nat, hi: nat): (slots: seq<nat>)
    requires lo <= hi <= MAX_SUMMARY_ITEMS
    ensures |slots| <= hi - lo
    ensures forall i :: 0 <= i < |slots| ==> lo <= slots[i] < hi
  {
    if lo == hi then []
    else Used(s, lo, hi - 1) + if s[hi - 1] != Unset then [hi - 1] else []
  }

  /** What finalize announces: the used slots. */
  function Steps(s: Slots): seq<nat>
  {
    Used(s, 0, MAX_SUMMARY_ITEMS)
  }

  /** What can be asked for by number: as the steps, with the first and the last slot whether used or not. */
  function Order(s: Slots): seq<nat>
  {
    [PRIMARY] + Used(s, 1, FEE_PAYER) + [FEE_PAYER]
  }

  lemma {:induction false} UsedMembers(s: Slots, lo: nat, hi: nat)
    requires lo <= hi <= MAX_SUMMARY_ITEMS
    ensures forall k :: k in Used(s, lo, hi) <==> lo <= k < hi && s[k] != Unset
    decreases hi
  {
    if lo < hi {
      UsedMembers(s, lo, hi - 1);
    }
  }

  lemma {:induction false} UsedAscends(s: Slots, lo: nat, hi: nat)
    requires lo <= hi <= MAX_SUMMARY_ITEMS
    ensures forall a, b :: 0 <= a < b < |Used(s, lo, hi)| ==> Used(s, lo, hi)[a] < Used(s, lo, hi)[b]
    decreases hi
  {
    if lo < hi {
      UsedAscends(s, lo, hi - 1);
    }
  }

  lemma {:induction false} UsedPrefix(s: Slots, lo: nat, mid: nat, hi: nat)
    requires lo <= mid <= hi <= MAX_SUMMARY_ITEMS
    ensures Used(s, lo, mid) <= Used(s, lo, hi)
    decreases hi
  {
    if mid < hi {
      UsedPrefix(s, lo, mid, hi - 1);
    }
  }

  lemma {:induction false} UsedFromPrimary(s: Slots, hi: nat)
    requires s[PRIMARY] != Unset && 1 <= hi <= MAX_SUMMARY_ITEMS
    ensures Used(s, 0, hi) == [PRIMARY] + Used(s, 1, hi)
  {
    if hi == 1 {
      assert Used(s, 0, 0) == [];
    } else {
      UsedFromPrimary(s, hi - 1);
    }
  }

  /** Every used slot is one step, in order of display. */
  lemma StepsAreUsedSlots(s: Slots)
    ensures forall k :: k in Steps(s) <==> 0 <= k < MAX_SUMMARY_ITEMS && s[k] != Unset
    ensures forall a, b :: 0 <= a < b < |Steps(s)| ==> Steps(s)[a] < Steps(s)[b]
  {
    UsedMembers(s, 0, MAX_SUMMARY_ITEMS);
    UsedAscends(s, 0, MAX_SUMMARY_ITEMS);
  }

  /** When finalize succeeds, the numbered items are its steps and past them there is no used slot. */
  lemma OrderAgrees(s: Slots)
    requires s[PRIMARY] != Unset
    ensures |Steps(s)| <= |Order(s)|
    ensures forall i :: 0 <= i < |Steps(s)| ==> Order(s)[i] == Steps(s)[i]
    ensures forall i :: |Steps(s)| <= i < |Order(s)| ==> s[Order(s)[i]] == Unset
  {
    UsedFromPrimary(s, FEE_PAYER);
    assert Steps(s) == Used(s, 0, FEE_PAYER) + if s[FEE_PAYER] != Unset then [FEE_PAYER] else [];
  }

  // ---- Writing ----

  /** The first unused general slot from number `k` on; NONCE_ACCOUNT when there is none. */
  function FreeFrom(s: Slots, k: nat): (free: nat)
    requires 1 <= k <= NONCE_ACCOUNT
    ensures k <= free <= NONCE_ACCOUNT
    ensures free < NONCE_ACCOUNT ==> s[free] == Unset
    ensures forall j :: k <= j < free ==> s[j] != Unset
    decreases NONCE_ACCOUNT - k
  {
    if k == NONCE_ACCOUNT || s[k] == Unset then k else FreeFrom(s, k + 1)
  }

  /** The slots after a general item is added; None when there is no slot for it and the write would go astray. */
  function Add(s: Slots, item: Item): Option<Slots>
  {
    var k := FreeFrom(s, 1);
    if k == NONCE_ACCOUNT then None else Some(s[k := item])
  }

  function AddAll(s: Slots, items: seq<Item>): Option<Slots>
    decreases |items|
  {
    if items == [] then Some(s)
    else
      var t := Add(s, items[0]);
      if t.None? then None else AddAll(t.value, items[1..])
  }

  /** The general slots hold these items in this order, and nothing after them. */
  ghost predicate Lists(s: Slots, items: seq<Item>)
  {
    && |items| <= NUM_GENERAL_ITEMS
    && (forall k :: 1 <= k <= |items| ==> s[k] == items[k - 1] && s[k] != Unset)
    && (forall k :: 1 + |items| <= k <= NUM_GENERAL_ITEMS ==> s[k] == Unset)
  }

  lemma {:induction false} FreeIs(s: Slots, free: nat, k: nat)
    requires 1 <= k <= free <= NONCE_ACCOUNT && (free < NONCE_ACCOUNT ==> s[free] == Unset)
    requires forall i :: 1 <= i < free ==> s[i] != Unset
    ensures FreeFrom(s, k) == free
    decreases free - k
  {
    if k < free {
      FreeIs(s, free, k + 1);
    }
  }

  lemma AddLists(s: Slots, had: seq<Item>, item: Item)
    requires Lists(s, had) && item != Unset
    ensures Add(s, item).Some? <==> |had| < NUM_GENERAL_ITEMS
    ensures Add(s, item).Some? ==>
              Lists(Add(s, item).value, had + [item]) && Add(s, item).value == s[1 + |had| := item]
  {
    FreeIs(s, 1 + |had|, 1);
  }

  /** Items are added in order behind those there, as long as there is room; no other slot is touched. */
  lemma {:induction false} AddAllLists(s: Slots, had: seq<Item>, items: seq<Item>)
    requires Lists(s, had) && Unset !in items
    ensures AddAll(s, items).Some? <==> |had| + |items| <= NUM_GENERAL_ITEMS
    ensures AddAll(s, items).Some? ==>
              var t := AddAll(s, items).value;
              Lists(t, had + items)
              && forall k :: 0 <= k < MAX_SUMMARY_ITEMS && !(1 <= k <= NUM_GENERAL_ITEMS) ==> t[k] == s[k]
    decreases |items|
  {
    if items == [] {
      assert had + items == had;
    } else {
      AddLists(s, had, items[0]);
      if |had| < NUM_GENERAL_ITEMS {
        AddAllLists(Add(s, items[0]).value, had + [items[0]], items[1..]);
        assert had + [items[0]] + items[1..] == had + items;
      }
    }
  }

  /** What a printer writes: general items, the primary item, further general items. */
  datatype Script = Script(before: seq<Line>, primary: Line, after: seq<Line>)
  {
    function Lines(): seq<Line> { before + after }
  }

  /** Two scripts fill the slots alike: the same primary item and the same lines. */
  predicate Alike(a: Script, b: Script)
  {
    a.primary == b.primary && a.Lines() == b.Lines()
  }

  function Play(s: Slots, script: Script): Option<Slots>
  {
    var t := AddAll(s, script.before);
    if t.None? || t.value[PRIMARY] != Unset then None else AddAll(t.value[PRIMARY := script.primary], script.after)
  }

  lemma ListsFrame(s: Slots, t: Slots, items: seq<Item>)
    requires Lists(s, items) && forall k :: 1 <= k <= NUM_GENERAL_ITEMS ==> t[k] == s[k]
    ensures Lists(t, items)
  {
  }

  lemma Grouped(a: seq<Item>, b: seq<Item>, c: seq<Item>)
    ensures a + b + c == a + (b + c)
  {
  }

  /** A script plays to its end exactly when its lines find room; they then stand in order behind those there. */
  lemma PlayLists(s: Slots, had: seq<Item>, script: Script)
    requires Lists(s, had) && s[PRIMARY] == Unset
    ensures Play(s, script).Some? <==> |had| + |script.Lines()| <= NUM_GENERAL_ITEMS
    ensures Play(s, script).Some? ==>
              var t := Play(s, script).value;
              && Lists(t, had + script.Lines()) && t[PRIMARY] == script.primary
              && forall k :: NONCE_ACCOUNT <= k < MAX_SUMMARY_ITEMS ==> t[k] == s[k]
  {
    AddAllLists(s, had, script.before);
    if AddAll(s, script.before).Some? {
      var t := AddAll(s, script.before).value;
      var u: Slots := t[PRIMARY := script.primary];
      ListsFrame(t, u, had + script.before);
      AddAllLists(u, had + script.before, script.after);
      Grouped(had, script.before, script.after);
    }
  }

  // ---- The store ----

  class TransactionSummary {
    var primary: Item
    var feePayer: Item
    var nonceAccount: Item
    var nonceAuthority: Item
    const general: array<Item>

    ghost predicate Valid() { general.Length == NUM_GENERAL_ITEMS }

    ghost function Slots(): (s: Slots)
      reads this, general
      requires Valid()
      ensures s[PRIMARY] == primary && s[FEE_PAYER] == feePayer
      ensures s[NONCE_ACCOUNT] == nonceAccount && s[NONCE_AUTHORITY] == nonceAuthority
      ensures forall k :: 1 <= k <= NUM_GENERAL_ITEMS ==> s[k] == general[k - 1]
    {
      var s: seq<Item> := [primary] + general[..] + [nonceAccount, nonceAuthority, feePayer];
      s
    }

    constructor ()
      ensures Valid() && fresh(general) && Slots() == EMPTY
    {
      primary, feePayer, nonceAccount, nonceAuthority := Unset, Unset, Unset, Unset;
      general := new Item[NUM_GENERAL_ITEMS](_ => Unset);
    }

    method Reset()
      requires Valid()
      modifies this, general
      ensures Slots() == EMPTY
    {
      primary, feePayer, nonceAccount, nonceAuthority := Unset, Unset, Unset, Unset;
      forall i | 0 <= i < general.Length {
        general[i] := Unset;
      }
    }

    /** The number of the first unused general slot; NONCE_ACCOUNT when there is none. */
    method GeneralItem() returns (slot: nat)
      requires Valid()
      ensures slot == FreeFrom(Slots(), 1)
    {
      slot := 1;
      while slot <= NUM_GENERAL_ITEMS
        invariant 1 <= slot <= NONCE_ACCOUNT
        invariant FreeFrom(Slots(), slot) == FreeFrom(Slots(), 1)
      {
        if general[slot - 1] == Unset {
          return;
        }
        slot := slot + 1;
      }
    }

    /** Fills the next general slot; false when there is none and the write would go astray. */
    method AddGeneral(item: Item) returns (ok: bool)
      requires Valid()
      modifies general
      ensures ok == Add(old(Slots()), item).Some?
      ensures Slots() == if ok then Add(old(Slots()), item).value else old(Slots())
    {
      var slot := GeneralItem();
      ok := slot != NONCE_ACCOUNT;
      if ok {
        general[slot - 1] := item;
      }
    }

    /** Adds items until one finds no slot. */
    method AddGenerals(items: seq<Item>) returns (ok: bool)
      requires Valid()
      modifies general
      ensures ok == AddAll(old(Slots()), items).Some?
      ensures ok ==> Slots() == AddAll(old(Slots()), items).value
    {
      ok := true;
      var i := 0;
      while i < |items| && ok
        invariant 0 <= i <= |items|
        invariant ok ==> AddAll(Slots(), items[i..]) == AddAll(old(Slots()), items)
        invariant !ok ==> AddAll(old(Slots()), items).None?
      {
        assert items[i..][1..] == items[i + 1..];
        ok := AddGeneral(items[i]);
        i := i + 1;
      }
    }

    method Print(script: Script) returns (ok: bool)
      requires Valid()
      modifies this`primary, general
      ensures ok == Play(old(Slots()), script).Some?
      ensures ok ==> Slots() == Play(old(Slots()), script).value
    {
      ok := AddGenerals(script.before);
      if ok {
        ok := SetPrimary(script.primary);
      }
      if ok {
        ok := AddGenerals(script.after);
      }
    }

    method SetPrimary(item: Item) returns (ok: bool)
      requires Valid()
      modifies this`primary
      ensures ok == (old(primary) == Unset)
      ensures Slots() == if ok then old(Slots())[PRIMARY := item] else old(Slots())
    {
      ok := primary == Unset;
      if ok {
        primary := item;
      }
    }

    method SetNonce(account: Item, authority: Item) returns (ok: bool)
      requires Valid()
      modifies this`nonceAccount, this`nonceAuthority
      ensures ok == (old(nonceAccount) == Unset && old(nonceAuthority) == Unset)
      ensures ok ==> Slots() == old(Slots())[NONCE_ACCOUNT := account][NONCE_AUTHORITY := authority]
      ensures !ok ==> Slots() == old(Slots())
    {
      ok := nonceAccount == Unset && nonceAuthority == Unset;
      if ok {
        nonceAccount := account;
        nonceAuthority := authority;
      }
    }

    /** Fails, and changes nothing, when the fee payer is there already. */
    method SetFeePayer(key: key32) returns (ok: bool)
      requires Valid()
      modifies this`feePayer
      ensures ok == (old(feePayer) == Unset)
      ensures Slots() == if ok then old(Slots())[FEE_PAYER := Key("Fee payer", key)] else old(Slots())
    {
      ok := feePayer == Unset;
      if ok {
        feePayer := Key("Fee payer", key);
      }
    }

    /** The slot displayed at a position: walks the slots counting the used ones. */
    method FindItem(index: nat) returns (slot: Option<nat>)
      requires Valid()
      ensures slot == if index < |Order(Slots())| then Some(Order(Slots())[index]) else None
    {
      ghost var s := Slots();
      if index == 0 {
        return Some(PRIMARY);
      }
      var current: nat := 1;
      var i: nat := 0;
      while i < NUM_GENERAL_ITEMS
        invariant 0 <= i <= NUM_GENERAL_ITEMS
        invariant current == 1 + |Used(s, 1, 1 + i)| <= index
      {
        if general[i] != Unset {
          if current == index {
            UsedPrefix(s, 1, 2 + i, FEE_PAYER);
            return Some(1 + i);
          }
          current := current + 1;
        }
        i := i + 1;
      }
      slot := FindLast(index, current);
    }

    /** The slots behind the general ones, of which `current` is the first number. */
    method FindLast(index: nat, current: nat) returns (slot: Option<nat>)
      requires Valid() && current == 1 + |Used(Slots(), 1, NONCE_ACCOUNT)| <= index
      ensures slot == if index < |Order(Slots())| then Some(Order(Slots())[index]) else None
    {
      ghost var s := Slots();
      var at := current;
      if nonceAccount != Unset {
        if at == index {
          UsedPrefix(s, 1, NONCE_AUTHORITY, FEE_PAYER);
          return Some(NONCE_ACCOUNT);
        }
        at := at + 1;
      }
      assert at == 1 + |Used(s, 1, NONCE_AUTHORITY)|;
      if nonceAuthority != Unset {
        if at == index {
          return Some(NONCE_AUTHORITY);
        }
        at := at + 1;
      }
      assert at == 1 + |Used(s, 1, FEE_PAYER)|;
      slot := if at == index then Some(FEE_PAYER) else None;
    }

    /** The item in a slot. */
    method At(slot: nat) returns (item: Item)
      requires Valid() && slot < MAX_SUMMARY_ITEMS
      ensures item == Slots()[slot]
    {
      if slot == PRIMARY {
        item := primary;
      } else if slot == NONCE_ACCOUNT {
        item := nonceAccount;
      } else if slot == NONCE_AUTHORITY {
        item := nonceAuthority;
      } else if slot == FEE_PAYER {
        item := feePayer;
      } else {
        item := general[slot - 1];
      }
    }

    /** Lists the kinds of the used slots in order of display; fails when the primary slot is unused. */
    method Finalize(kinds: array<Kind>) returns (ok: bool, n: nat)
      requires Valid() && kinds.Length == MAX_SUMMARY_ITEMS
      modifies kinds
      ensures ok == (primary != Unset)
      ensures ok ==> n == |Steps(Slots())|
      ensures ok ==> forall i :: 0 <= i < n ==> kinds[i] == KindOf(Slots()[Steps(Slots())[i]])
      ensures !ok ==> n == 0 && kinds[..] == old(kinds[..])
    {
      n := 0;
      if primary == Unset {
        return false, 0;
      }
      ghost var s := Slots();
      n := Record(kinds, n, primary, s, PRIMARY);
      var i: nat := 0;
      while i < NUM_GENERAL_ITEMS
        invariant 0 <= i <= NUM_GENERAL_ITEMS
        invariant n == |Used(s, 0, 1 + i)|
        invariant Recorded(kinds, s, 1 + i)
      {
        n := Record(kinds, n, general[i], s, 1 + i);
        i := i + 1;
      }
      n := Record(kinds, n, nonceAccount, s, NONCE_ACCOUNT);
      n := Record(kinds, n, nonceAuthority, s, NONCE_AUTHORITY);
      n := Record(kinds, n, feePayer, s, FEE_PAYER);
      ok := true;
    }
  }

  /** The kinds of the used slots below `hi` are listed. */
  ghost predicate Recorded(kinds: array<Kind>, s: Slots, hi: nat)
    requires hi <= MAX_SUMMARY_ITEMS <= kinds.Length
    reads kinds
  {
    forall j :: 0 <= j < |Used(s, 0, hi)| ==> kinds[j] == KindOf(s[Used(s, 0, hi)[j]])
  }

  /** Appends the kind of one slot to the list if it is used. */
  method Record(kinds: array<Kind>, n: nat, item: Item, ghost s: Slots, ghost slot: nat) returns (m: nat)
    requires slot < MAX_SUMMARY_ITEMS == kinds.Length && item == s[slot]
    requires n == |Used(s, 0, slot)| && Recorded(kinds, s, slot)
    modifies kinds
    ensures m == |Used(s, 0, slot + 1)| && Recorded(kinds, s, slot + 1)
  {
    m := n;
    if KindOf(item) != KindNone {
      kinds[n] := KindOf(item);
      m := n + 1;
    }
  }
}
