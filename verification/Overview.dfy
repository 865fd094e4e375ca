/** What all the screens of a message tell about it. */
module Overview {
  import opened Bytes
  import opened Infos
  import opened Summary
  import opened Printers
  import opened Recogniser
  import opened Transaction
  import opened Handler
  import opened Sequences
  import opened Fee
  import opened Money
  import opened Titles
  import opened Display
  import opened Screens

  // ---- What is seen of a message ----

  datatype Body = Known(visible: Visible) | Blindly(hash: key32)

  /** The nonce account and its authority, the fee, what is to be signed, and who pays for it. */
  datatype Seen = Seen(nonce: Option<(key32, key32)>, fee: Option<u64>, body: Body, payer: Option<key32>)

  function FeeShownOf(infos: Option<seq<Info>>): seq<Line>
    requires infos.Some? ==> |infos.value| < TWO_32
  {
    if infos.Some? then FeeLines(infos.value) else []
  }

  function NonceOf(c: Config, infos: Option<seq<Info>>): Option<(key32, key32)>
  {
    if infos.Some? && HasNonce(infos.value) && c.expert
    then Some((infos.value[0].system.account, infos.value[0].system.authority)) else None
  }

  function FeeFound(infos: Option<seq<Info>>): Option<u64>
    requires infos.Some? ==> |infos.value| < TWO_32
  {
    var lines := FeeShownOf(infos);
    if lines == [] || !lines[0].Amount? then None else Some(lines[0].lamports)
  }

  function PayerOf(c: Config): Option<key32>
    requires c.header.Whole()
  {
    if c.Shows(FeePayer(c.header)) then Some(FeePayer(c.header)) else None
  }

  function BodyOf(c: Config, infos: Option<seq<Info>>, hash: key32): Body
  {
    if Recognised(infos) then Known(VisibleSequence(c, Core(infos.value))) else Blindly(hash)
  }

  function SeenOf(c: Config, infos: Option<seq<Info>>, hash: key32): Seen
    requires c.header.Whole() && (infos.Some? ==> |infos.value| < TWO_32)
  {
    Seen(NonceOf(c, infos), FeeFound(infos), BodyOf(c, infos, hash), PayerOf(c))
  }

  // ---- The items in order of display ----

  function NonceLines(nonce: Option<(key32, key32)>): seq<Line>
  {
    if nonce.None? then [] else [Key("Nonce account", nonce.value.0), Key("Nonce authority", nonce.value.1)]
  }

  function PayerLines(payer: Option<key32>): seq<Line>
  {
    if payer.None? then [] else [Key("Fee payer", payer.value)]
  }

  /** What is printed for a message, recognised or not. */
  function BodyScript(c: Config, infos: Option<seq<Info>>, hash: key32): Script
  {
    if Recognised(infos) then Render(c, ShapeOf(Core(infos.value)).value)
    else Just(Text("Unrecognized", "format"), [Hash("Message Hash", hash)])
  }

  /** Everything that is displayed for a message, in order. */
  function Sheet(c: Config, infos: Option<seq<Info>>, hash: key32): seq<Line>
    requires c.header.Whole() && (infos.Some? ==> |infos.value| < TWO_32)
  {
    var script := BodyScript(c, infos, hash);
    [script.primary] +
      (FeeShownOf(infos) + (script.Lines() + (NonceLines(NonceOf(c, infos)) + PayerLines(PayerOf(c)))))
  }

  /** The items in the used slots from `lo` up to `hi`. */
  function ItemsIn(s: Slots, lo: nat, hi: nat): (items: seq<Item>)
    requires lo <= hi <= MAX_SUMMARY_ITEMS
    ensures |items| == |Used(s, lo, hi)|
    ensures forall i :: 0 <= i < |items| ==> items[i] == s[Used(s, lo, hi)[i]] && items[i] != Unset
  {
    if lo == hi then [] else ItemsIn(s, lo, hi - 1) + if s[hi - 1] != Unset then [s[hi - 1]] else []
  }

  /** The items of the announced steps. */
  function Items(s: Slots): (items: seq<Line>)
    ensures |items| == |Steps(s)|
    ensures forall i :: 0 <= i < |items| ==> items[i] == s[Steps(s)[i]]
  {
    var items := ItemsIn(s, 0, MAX_SUMMARY_ITEMS);
    items
  }

  lemma {:induction false} ItemsSplit(s: Slots, lo: nat, mid: nat, hi: nat)
    requires lo <= mid <= hi <= MAX_SUMMARY_ITEMS
    ensures ItemsIn(s, lo, hi) == ItemsIn(s, lo, mid) + ItemsIn(s, mid, hi)
    decreases hi
  {
    if mid < hi {
      ItemsSplit(s, lo, mid, hi - 1);
    }
  }

  lemma ListedAt(s: Slots, lines: seq<Item>, k: nat)
    requires Lists(s, lines) && 1 <= k < NONCE_ACCOUNT
    ensures k <= |lines| ==> s[k] == lines[k - 1] && s[k] != Unset
    ensures k > |lines| ==> s[k] == Unset
  {
  }

  lemma ItemsStep(s: Slots, lo: nat, hi: nat)
    requires lo <= hi < MAX_SUMMARY_ITEMS
    ensures ItemsIn(s, lo, hi + 1) == ItemsIn(s, lo, hi) + if s[hi] != Unset then [s[hi]] else []
  {
  }

  lemma ItemsSkip(s: Slots, lo: nat, hi: nat)
    requires lo <= hi < MAX_SUMMARY_ITEMS && s[hi] == Unset
    ensures ItemsIn(s, lo, hi + 1) == ItemsIn(s, lo, hi)
  {
  }

  lemma TakeStep(lines: seq<Item>, k: nat)
    requires 1 <= k <= |lines|
    ensures lines[..k - 1] + [lines[k - 1]] == lines[..k]
  {
  }

  lemma {:induction false} ListedUpTo(s: Slots, lines: seq<Item>, n: nat)
    requires Lists(s, lines) && n <= |lines| < NONCE_ACCOUNT
    ensures ItemsIn(s, 1, n + 1) == lines[..n]
  {
    if n == 0 {
      assert ItemsIn(s, 1, 1) == [];
    } else {
      ListedUpTo(s, lines, n - 1);
      ListedAt(s, lines, n);
      ItemsStep(s, 1, n);
      TakeStep(lines, n);
    }
  }

  lemma {:induction false} ItemsTail(s: Slots, first: nat, hi: nat)
    requires 1 <= first <= hi <= NONCE_ACCOUNT
    requires forall k :: first <= k < hi ==> s[k] == Unset
    ensures ItemsIn(s, 1, hi) == ItemsIn(s, 1, first)
    decreases hi
  {
    if first < hi {
      ItemsTail(s, first, hi - 1);
      ItemsSkip(s, 1, hi - 1);
    }
  }

  lemma UnsetBehind(s: Slots, lines: seq<Item>)
    requires Lists(s, lines)
    ensures forall k :: |lines| + 1 <= k < NONCE_ACCOUNT ==> s[k] == Unset
  {
  }

  lemma LastItems(s: Slots)
    ensures ItemsIn(s, NONCE_ACCOUNT, FEE_PAYER) ==
      (if s[NONCE_ACCOUNT] != Unset then [s[NONCE_ACCOUNT]] else []) +
      (if s[NONCE_AUTHORITY] != Unset then [s[NONCE_AUTHORITY]] else [])
  {
    assert ItemsIn(s, NONCE_ACCOUNT, NONCE_ACCOUNT) == [];
    assert ItemsIn(s, NONCE_ACCOUNT, NONCE_AUTHORITY) == if s[NONCE_ACCOUNT] != Unset then [s[NONCE_ACCOUNT]] else [];
  }

  lemma EndItems(s: Slots)
    ensures ItemsIn(s, FEE_PAYER, MAX_SUMMARY_ITEMS) == if s[FEE_PAYER] != Unset then [s[FEE_PAYER]] else []
    ensures ItemsIn(s, 0, 1) == if s[PRIMARY] != Unset then [s[PRIMARY]] else []
  {
    assert ItemsIn(s, FEE_PAYER, FEE_PAYER) == [];
    assert ItemsIn(s, 0, 0) == [];
  }

  /** The slots hold a script behind a fee line, a nonce and a payer, and nothing else. */
  ghost predicate Holding(s: Slots, script: Script, fee: seq<Line>, nonce: Option<(key32, key32)>, payer: Option<key32>)
  {
    && s[PRIMARY] == script.primary && Lists(s, fee + script.Lines())
    && s[NONCE_ACCOUNT] == (if nonce.None? then Unset else Key("Nonce account", nonce.value.0))
    && s[NONCE_AUTHORITY] == (if nonce.None? then Unset else Key("Nonce authority", nonce.value.1))
    && s[FEE_PAYER] == (if payer.None? then Unset else Key("Fee payer", payer.value))
  }

  lemma Restored(s: Slots)
    ensures forall k :: 0 <= k < FEE_PAYER ==> s[FEE_PAYER := Unset][k] == s[k]
  {
  }

  lemma KnownHolds(s: Slots, t: Slots, c: Config, infos: Option<seq<Info>>, hash: key32, payer: Option<key32>)
    requires Recognised(infos) && |infos.value| < TWO_32 && Summarised(t, c, infos.value, Printed)
    requires forall k :: 0 <= k < FEE_PAYER ==> t[k] == s[k]
    requires s[FEE_PAYER] == if payer.None? then Unset else Key("Fee payer", payer.value)
    ensures Holding(s, BodyScript(c, infos, hash), FeeShownOf(infos), NonceOf(c, infos), payer)
  {
    ListsFrame(t, s, FeeLines(infos.value) + BodyScript(c, infos, hash).Lines());
  }

  lemma BlindHolds(s: Slots, t: Slots, c: Config, infos: Option<seq<Info>>, hash: key32, payer: Option<key32>)
    requires !Recognised(infos) && (infos.Some? ==> |infos.value| < TWO_32) && Blind(t, c, infos, hash)
    requires forall k :: 0 <= k < FEE_PAYER ==> t[k] == s[k]
    requires s[FEE_PAYER] == if payer.None? then Unset else Key("Fee payer", payer.value)
    ensures Holding(s, BodyScript(c, infos, hash), FeeShownOf(infos), NonceOf(c, infos), payer)
  {
    JustLines(Text("Unrecognized", "format"), [Hash("Message Hash", hash)]);
    ListsFrame(t, s, FeeShownOf(infos) + [Hash("Message Hash", hash)]);
  }

  lemma PreparedHolds(s: Slots, c: Config, infos: Option<seq<Info>>, hash: key32)
    requires c.header.Whole() && (infos.Some? ==> |infos.value| < TWO_32)
    requires Prepared(s, c, infos, hash)
    ensures Holding(s, BodyScript(c, infos, hash), FeeShownOf(infos), NonceOf(c, infos), PayerOf(c))
  {
    Restored(s);
    if Recognised(infos) {
      KnownHolds(s, s[FEE_PAYER := Unset], c, infos, hash, PayerOf(c));
    } else {
      BlindHolds(s, s[FEE_PAYER := Unset], c, infos, hash, PayerOf(c));
    }
  }

  lemma GeneralItems(s: Slots, lines: seq<Item>)
    requires Lists(s, lines)
    ensures ItemsIn(s, 1, NONCE_ACCOUNT) == lines
  {
    UnsetBehind(s, lines);
    ItemsTail(s, |lines| + 1, NONCE_ACCOUNT);
    ListedUpTo(s, lines, |lines|);
    assert lines[..|lines|] == lines;
  }

  lemma NonceItems(s: Slots, nonce: Option<(key32, key32)>)
    requires s[NONCE_ACCOUNT] == (if nonce.None? then Unset else Key("Nonce account", nonce.value.0))
    requires s[NONCE_AUTHORITY] == (if nonce.None? then Unset else Key("Nonce authority", nonce.value.1))
    ensures ItemsIn(s, NONCE_ACCOUNT, FEE_PAYER) == NonceLines(nonce)
  {
    LastItems(s);
  }

  lemma EdgeItems(s: Slots, script: Script, fee: seq<Line>, nonce: Option<(key32, key32)>, payer: Option<key32>)
    requires Holding(s, script, fee, nonce, payer)
    ensures ItemsIn(s, 0, 1) == [script.primary]
    ensures ItemsIn(s, NONCE_ACCOUNT, FEE_PAYER) == NonceLines(nonce)
    ensures ItemsIn(s, FEE_PAYER, MAX_SUMMARY_ITEMS) == PayerLines(payer)
  {
    NonceItems(s, nonce);
    EndItems(s);
  }

  lemma FourPieces(s: Slots)
    ensures ItemsIn(s, 0, MAX_SUMMARY_ITEMS) == ItemsIn(s, 0, 1) + (ItemsIn(s, 1, NONCE_ACCOUNT) +
      (ItemsIn(s, NONCE_ACCOUNT, FEE_PAYER) + ItemsIn(s, FEE_PAYER, MAX_SUMMARY_ITEMS)))
  {
    ItemsSplit(s, 0, 1, MAX_SUMMARY_ITEMS);
    ItemsSplit(s, 1, NONCE_ACCOUNT, MAX_SUMMARY_ITEMS);
    ItemsSplit(s, NONCE_ACCOUNT, FEE_PAYER, MAX_SUMMARY_ITEMS);
  }

  lemma HoldingItems(s: Slots, script: Script, fee: seq<Line>, nonce: Option<(key32, key32)>, payer: Option<key32>)
    requires Holding(s, script, fee, nonce, payer)
    ensures Items(s) == [script.primary] + (fee + (script.Lines() + (NonceLines(nonce) + PayerLines(payer))))
  {
    FourPieces(s);
    EdgeItems(s, script, fee, nonce, payer);
    GeneralItems(s, fee + script.Lines());
    Grouped(fee, script.Lines(), NonceLines(nonce) + PayerLines(payer));
  }

  /** The steps of a prepared summary are the sheet of its message. */
  lemma ItemsAreSheet(s: Slots, c: Config, infos: Option<seq<Info>>, hash: key32)
    requires c.header.Whole() && (infos.Some? ==> |infos.value| < TWO_32)
    requires Prepared(s, c, infos, hash)
    ensures Items(s) == Sheet(c, infos, hash)
  {
    PreparedHolds(s, c, infos, hash);
    HoldingItems(s, BodyScript(c, infos, hash), FeeShownOf(infos), NonceOf(c, infos), PayerOf(c));
  }

  // ---- The titles tell the parts ----

  predicate AllIn(lines: seq<Line>, part: Part)
  {
    forall i :: 0 <= i < |lines| ==> Named(lines[i]) && PartOf(lines[i].title) == part
  }

  lemma BlindNamed(hash: key32)
    ensures var script := Just(Text("Unrecognized", "format"), [Hash("Message Hash", hash)]);
      AllIn(script.Lines(), BodyPart) && NamedBody(script.primary)
  {
  }

  lemma BodyNamed(c: Config, infos: Option<seq<Info>>, hash: key32)
    ensures var script := BodyScript(c, infos, hash);
      AllIn(script.Lines(), BodyPart) && NamedBody(script.primary)
  {
    if Recognised(infos) {
      ShapeNamed(c, ShapeOf(Core(infos.value)).value);
    } else {
      BlindNamed(hash);
    }
  }

  lemma FeeNamed(infos: Option<seq<Info>>)
    requires infos.Some? ==> |infos.value| < TWO_32
    ensures AllIn(FeeShownOf(infos), FeePart) && |FeeShownOf(infos)| <= 1
    ensures FeeShownOf(infos) == if FeeFound(infos).None? then [] else [Amount("Max fees", FeeFound(infos).value)]
  {
  }

  lemma NonceNamed(nonce: Option<(key32, key32)>)
    ensures AllIn(NonceLines(nonce), NoncePart)
  {
  }

  lemma PayerNamed(payer: Option<key32>)
    ensures AllIn(PayerLines(payer), PayerPart)
  {
  }

  predicate AllUpTo(lines: seq<Line>, k: nat)
  {
    forall i :: 0 <= i < |lines| ==> Rank(PartOf(lines[i].title)) <= k
  }

  predicate AllBehind(lines: seq<Line>, k: nat)
  {
    forall i :: 0 <= i < |lines| ==> Rank(PartOf(lines[i].title)) > k
  }

  /** How many lines in front belong to the first parts. */
  function Front(lines: seq<Line>, k: nat): nat
  {
    if lines == [] || Rank(PartOf(lines[0].title)) > k then 0 else 1 + Front(lines[1..], k)
  }

  lemma {:induction false} FrontIs(a: seq<Line>, b: seq<Line>, k: nat)
    requires AllUpTo(a, k) && AllBehind(b, k)
    ensures Front(a + b, k) == |a|
  {
    if a == [] {
      assert a + b == b;
    } else {
      assert (a + b)[1..] == a[1..] + b && (a + b)[0] == a[0];
      FrontIs(a[1..], b, k);
    }
  }

  /** Where the parts are in order, there is one place to divide. */
  lemma SplitOnce(a: seq<Line>, b: seq<Line>, x: seq<Line>, y: seq<Line>, k: nat)
    requires AllUpTo(a, k) && AllUpTo(x, k) && AllBehind(b, k) && AllBehind(y, k)
    ensures a + b == x + y <==> a == x && b == y
  {
    if a + b == x + y {
      FrontIs(a, b, k);
      FrontIs(x, y, k);
      assert a == (a + b)[..|a|] && x == (x + y)[..|x|];
      assert b == (a + b)[|a|..] && y == (x + y)[|x|..];
    }
  }

  lemma BehindTwo(a: seq<Line>, b: seq<Line>, k: nat)
    requires AllBehind(a, k) && AllBehind(b, k)
    ensures AllBehind(a + b, k)
  {
  }

  lemma PartRank(lines: seq<Line>, part: Part, k: nat)
    requires AllIn(lines, part)
    ensures Rank(part) <= k ==> AllUpTo(lines, k)
    ensures Rank(part) > k ==> AllBehind(lines, k)
  {
  }

  /** Fee, body, nonce and payer behind each other are told apart. */
  lemma FourParts(f: seq<Line>, b: seq<Line>, n: seq<Line>, p: seq<Line>,
      f': seq<Line>, b': seq<Line>, n': seq<Line>, p': seq<Line>)
    requires AllIn(f, FeePart) && AllIn(b, BodyPart) && AllIn(n, NoncePart) && AllIn(p, PayerPart)
    requires AllIn(f', FeePart) && AllIn(b', BodyPart) && AllIn(n', NoncePart) && AllIn(p', PayerPart)
    ensures f + (b + (n + p)) == f' + (b' + (n' + p')) <==> f == f' && b == b' && n == n' && p == p'
  {
    PartRank(f, FeePart, 0); PartRank(f', FeePart, 0);
    PartRank(b, BodyPart, 0); PartRank(b', BodyPart, 0);
    PartRank(n, NoncePart, 0); PartRank(n', NoncePart, 0);
    PartRank(p, PayerPart, 0); PartRank(p', PayerPart, 0);
    PartRank(b, BodyPart, 1); PartRank(b', BodyPart, 1);
    PartRank(n, NoncePart, 1); PartRank(n', NoncePart, 1);
    PartRank(p, PayerPart, 1); PartRank(p', PayerPart, 1);
    PartRank(n, NoncePart, 2); PartRank(n', NoncePart, 2);
    PartRank(p, PayerPart, 2); PartRank(p', PayerPart, 2);
    BehindTwo(n, p, 0); BehindTwo(n', p', 0);
    BehindTwo(b, n + p, 0); BehindTwo(b', n' + p', 0);
    BehindTwo(n, p, 1); BehindTwo(n', p', 1);
    SplitOnce(f, b + (n + p), f', b' + (n' + p'), 0);
    SplitOnce(b, n + p, b', n' + p', 1);
    SplitOnce(n, p, n', p', 2);
  }

  // ---- Sheets tell what is seen ----

  lemma FirstAndRest(x: Line, a: seq<Line>, y: Line, b: seq<Line>)
    ensures [x] + a == [y] + b <==> x == y && a == b
  {
    assert ([x] + a)[0] == x && ([y] + b)[0] == y;
    assert ([x] + a)[1..] == a && ([y] + b)[1..] == b;
  }

  lemma NonceTells(a: Option<(key32, key32)>, b: Option<(key32, key32)>)
    ensures NonceLines(a) == NonceLines(b) <==> a == b
  {
    if a.Some? && b.Some? {
      assert NonceLines(a)[0] == Key("Nonce account", a.value.0)
        && NonceLines(a)[1] == Key("Nonce authority", a.value.1);
      assert NonceLines(b)[0] == Key("Nonce account", b.value.0)
        && NonceLines(b)[1] == Key("Nonce authority", b.value.1);
    }
  }

  lemma PayerTells(a: Option<key32>, b: Option<key32>)
    ensures PayerLines(a) == PayerLines(b) <==> a == b
  {
    if a.Some? && b.Some? {
      assert PayerLines(a)[0] == Key("Fee payer", a.value) && PayerLines(b)[0] == Key("Fee payer", b.value);
    }
  }

  lemma NoTextAlone(c: Config, i: Info)
    requires Alone(i).Valid()
    ensures !RenderAlone(c, i).primary.Text?
  {
  }

  lemma NoTextFirst(c: Config, shape: Shape)
    requires shape.Valid()
    ensures !Render(c, shape).primary.Text?
  {
    if shape.Alone? {
      NoTextAlone(c, shape.info);
    }
  }

  lemma BodyTells(c: Config, d: Config, a: Option<seq<Info>>, b: Option<seq<Info>>, hash: key32, hash': key32)
    requires SameOptions(c, d)
    ensures Alike(BodyScript(c, a, hash), BodyScript(d, b, hash')) <==> BodyOf(c, a, hash) == BodyOf(d, b, hash')
  {
    JustLines(Text("Unrecognized", "format"), [Hash("Message Hash", hash)]);
    JustLines(Text("Unrecognized", "format"), [Hash("Message Hash", hash')]);
    if Recognised(a) && Recognised(b) {
      SequenceTells(c, d, Core(a.value), Core(b.value));
    } else if Recognised(a) {
      NoTextFirst(c, ShapeOf(Core(a.value)).value);
    } else if Recognised(b) {
      NoTextFirst(d, ShapeOf(Core(b.value)).value);
    } else if Alike(BodyScript(c, a, hash), BodyScript(d, b, hash')) {
      assert BodyScript(c, a, hash).Lines()[0] == BodyScript(d, b, hash').Lines()[0];
    }
  }

  /** Two messages have the same sheet exactly when the same is seen of them. */
  lemma SheetTells(c: Config, d: Config, a: Option<seq<Info>>, b: Option<seq<Info>>, hash: key32, hash': key32)
    requires SameOptions(c, d) && c.header.Whole() && d.header.Whole()
    requires (a.Some? ==> |a.value| < TWO_32) && (b.Some? ==> |b.value| < TWO_32)
    ensures Sheet(c, a, hash) == Sheet(d, b, hash') <==> SeenOf(c, a, hash) == SeenOf(d, b, hash')
  {
    var x, y := BodyScript(c, a, hash), BodyScript(d, b, hash');
    var n, m, p, q := NonceOf(c, a), NonceOf(d, b), PayerOf(c), PayerOf(d);
    BodyNamed(c, a, hash);
    BodyNamed(d, b, hash');
    FeeNamed(a);
    FeeNamed(b);
    NonceNamed(n);
    NonceNamed(m);
    PayerNamed(p);
    PayerNamed(q);
    FourParts(FeeShownOf(a), x.Lines(), NonceLines(n), PayerLines(p),
      FeeShownOf(b), y.Lines(), NonceLines(m), PayerLines(q));
    FirstAndRest(x.primary, FeeShownOf(a) + (x.Lines() + (NonceLines(n) + PayerLines(p))),
      y.primary, FeeShownOf(b) + (y.Lines() + (NonceLines(m) + PayerLines(q))));
    NonceTells(n, m);
    PayerTells(p, q);
    BodyTells(c, d, a, b, hash, hash');
    assert FeeShownOf(a) == FeeShownOf(b) <==> FeeFound(a) == FeeFound(b);
  }

  // ---- The summary ----

  lemma HoldingUnique(s: Slots, t: Slots, x: Script, y: Script, fee: seq<Line>, nonce: Option<(key32, key32)>,
      payer: Option<key32>)
    requires Holding(s, x, fee, nonce, payer) && Holding(t, y, fee, nonce, payer) && Alike(x, y)
    ensures s == t
  {
    var lines := fee + x.Lines();
    forall k | 1 <= k < NONCE_ACCOUNT ensures s[k] == t[k] {
      ListedAt(s, lines, k);
      ListedAt(t, lines, k);
    }
    assert forall k :: 0 <= k < MAX_SUMMARY_ITEMS ==> s[k] == t[k];
  }

  /**
   * Two messages, shown under the same settings, fill the summary alike exactly when the same nonce,
   * fee and payer, and the same of their instructions, is seen.
   */
  lemma SummaryTells(s: Slots, t: Slots, c: Config, d: Config, a: Option<seq<Info>>, b: Option<seq<Info>>, hash: key32,
      hash': key32)
    requires SameOptions(c, d) && c.header.Whole() && d.header.Whole()
    requires (a.Some? ==> |a.value| < TWO_32) && (b.Some? ==> |b.value| < TWO_32)
    requires Prepared(s, c, a, hash) && Prepared(t, d, b, hash')
    ensures s == t <==> SeenOf(c, a, hash) == SeenOf(d, b, hash')
  {
    ItemsAreSheet(s, c, a, hash);
    ItemsAreSheet(t, d, b, hash');
    SheetTells(c, d, a, b, hash, hash');
    if SeenOf(c, a, hash) == SeenOf(d, b, hash') {
      PreparedHolds(s, c, a, hash);
      PreparedHolds(t, d, b, hash');
      FeeNamed(a);
      FeeNamed(b);
      BodyTells(c, d, a, b, hash, hash');
      HoldingUnique(s, t, BodyScript(c, a, hash), BodyScript(d, b, hash'), FeeShownOf(a), NonceOf(c, a), PayerOf(c));
    }
  }

  // ---- The screens ----

  /** The screens one after the other. */
  function ScreensOf(s: Slots, long: bool): (screens: seq<Screen>)
    ensures |screens| == |Items(s)|
    ensures forall i :: 0 <= i < |screens| ==> screens[i] == ScreenOf(Items(s)[i], long)
  {
    seq(|Items(s)|, i requires 0 <= i < |Items(s)| => ScreenOf(Items(s)[i], long))
  }

  /** Every item can be displayed; otherwise the display ends with an error. */
  predicate AllShown(s: Slots, long: bool)
  {
    forall i :: 0 <= i < |Items(s)| ==> TextOf(Items(s)[i], long).Some?
  }

  predicate AllTold(s: Slots, long: bool)
  {
    forall i :: 0 <= i < |Items(s)| ==> Told(Items(s)[i], long)
  }

  predicate AllLinesNamed(lines: seq<Line>)
  {
    forall i :: 0 <= i < |lines| ==> Named(lines[i])
  }

  lemma NamedPieces(a: seq<Line>, b: seq<Line>)
    requires AllLinesNamed(a) && AllLinesNamed(b)
    ensures AllLinesNamed(a + b)
  {
  }

  lemma SheetNamed(c: Config, infos: Option<seq<Info>>, hash: key32)
    requires c.header.Whole() && (infos.Some? ==> |infos.value| < TWO_32)
    ensures AllLinesNamed(Sheet(c, infos, hash))
  {
    var script := BodyScript(c, infos, hash);
    BodyNamed(c, infos, hash);
    FeeNamed(infos);
    NonceNamed(NonceOf(c, infos));
    PayerNamed(PayerOf(c));
    NamedPieces(NonceLines(NonceOf(c, infos)), PayerLines(PayerOf(c)));
    NamedPieces(script.Lines(), NonceLines(NonceOf(c, infos)) + PayerLines(PayerOf(c)));
    NamedPieces(FeeShownOf(infos), script.Lines() + (NonceLines(NonceOf(c, infos)) + PayerLines(PayerOf(c))));
    NamedPieces([script.primary],
      FeeShownOf(infos) + (script.Lines() + (NonceLines(NonceOf(c, infos)) + PayerLines(PayerOf(c)))));
  }

  /** Exactly these summaries look alike: as many items, under the same titles, with values that look alike. */
  ghost predicate LookAlike(a: seq<Line>, b: seq<Line>, long: bool)
  {
    && |a| == |b|
    && forall i :: 0 <= i < |a| ==>
      a[i].title == b[i].title && KindOf(a[i]) == KindOf(b[i]) && ItemsLookAlike(a[i], b[i], long)
  }

  lemma ScreensDecide(s: Slots, t: Slots, long: bool)
    requires AllLinesNamed(Items(s)) && AllLinesNamed(Items(t)) && AllShown(s, long) && AllShown(t, long)
    ensures ScreensOf(s, long) == ScreensOf(t, long) <==> LookAlike(Items(s), Items(t), long)
  {
    var a, b := Items(s), Items(t);
    if |a| == |b| {
      forall i | 0 <= i < |a| ensures ScreenOf(a[i], long) == ScreenOf(b[i], long) <==>
        a[i].title == b[i].title && KindOf(a[i]) == KindOf(b[i]) && ItemsLookAlike(a[i], b[i], long)
      {
        ScreensAlike(a[i], b[i], long);
      }
      if ScreensOf(s, long) == ScreensOf(t, long) {
        forall i | 0 <= i < |a| ensures ScreenOf(a[i], long) == ScreenOf(b[i], long) {
          assert ScreensOf(s, long)[i] == ScreensOf(t, long)[i];
        }
      }
    }
  }

  /** The screens of two messages are the same exactly when their summaries look alike. */
  lemma DisplaysAlike(s: Slots, t: Slots, c: Config, d: Config, a: Option<seq<Info>>, b: Option<seq<Info>>, hash: key32,
      hash': key32, long: bool)
    requires c.header.Whole() && d.header.Whole()
    requires (a.Some? ==> |a.value| < TWO_32) && (b.Some? ==> |b.value| < TWO_32)
    requires Prepared(s, c, a, hash) && Prepared(t, d, b, hash') && AllShown(s, long) && AllShown(t, long)
    ensures ScreensOf(s, long) == ScreensOf(t, long) <==> LookAlike(Items(s), Items(t), long)
  {
    ItemsAreSheet(s, c, a, hash);
    ItemsAreSheet(t, d, b, hash');
    SheetNamed(c, a, hash);
    SheetNamed(d, b, hash');
    ScreensDecide(s, t, long);
  }

  lemma ToldItems(s: Slots, t: Slots, long: bool)
    requires AllLinesNamed(Items(s)) && AllLinesNamed(Items(t)) && AllShown(s, long) && AllTold(s, long)
    requires ScreensOf(s, long) == ScreensOf(t, long)
    ensures Items(s) == Items(t)
  {
    var a, b := Items(s), Items(t);
    forall i | 0 <= i < |a| ensures a[i] == b[i] {
      assert ScreensOf(s, long)[i] == ScreensOf(t, long)[i];
      ScreenToldIff(a[i], long);
    }
  }

  /**
   * A message whose values can be told from their texts has the screens of another message exactly
   * when the same is seen of both, down to the visible part of their instructions.
   */
  lemma DisplayTells(s: Slots, t: Slots, c: Config, d: Config, a: Option<seq<Info>>, b: Option<seq<Info>>, hash: key32,
      hash': key32, long: bool)
    requires SameOptions(c, d) && c.header.Whole() && d.header.Whole()
    requires (a.Some? ==> |a.value| < TWO_32) && (b.Some? ==> |b.value| < TWO_32)
    requires Prepared(s, c, a, hash) && Prepared(t, d, b, hash') && AllShown(s, long) && AllTold(s, long)
    ensures ScreensOf(s, long) == ScreensOf(t, long) <==> SeenOf(c, a, hash) == SeenOf(d, b, hash')
  {
    ItemsAreSheet(s, c, a, hash);
    ItemsAreSheet(t, d, b, hash');
    SheetTells(c, d, a, b, hash, hash');
    if ScreensOf(s, long) == ScreensOf(t, long) {
      SheetNamed(c, a, hash);
      SheetNamed(d, b, hash');
      ToldItems(s, t, long);
    }
  }

  // ---- What is moved ----

  /** Budget instructions and nonce advances move nothing. */
  predicate Idle(infos: seq<Info>)
  {
    forall i :: 0 <= i < |infos| ==> MovesOf(infos[i]) == []
  }

  lemma {:induction false} IdlePrefix(front: seq<Info>, rest: seq<Info>)
    requires Idle(front)
    ensures Moves(front + rest) == Moves(rest)
  {
    if front == [] {
      assert front + rest == rest;
    } else {
      assert (front + rest)[1..] == front[1..] + rest && (front + rest)[0] == front[0];
      IdlePrefix(front[1..], rest);
    }
  }

  /** A transaction moves what the instructions behind its prefix move. */
  lemma CoreMoves(infos: seq<Info>)
    ensures Moves(infos) == Moves(Core(infos))
  {
    var rest := AfterNonce(infos);
    var k := Prefix(rest);
    IdlePrefix(rest[..k], rest[k..]);
    assert rest == rest[..k] + rest[k..];
    if HasNonce(infos) {
      IdlePrefix(infos[..1], rest);
      assert infos == infos[..1] + rest;
    }
  }

  lemma ListsUnique(s: Slots, x: seq<Item>, y: seq<Item>)
    requires Lists(s, x) && Lists(s, y)
    ensures x == y
  {
    GeneralItems(s, x);
    GeneralItems(s, y);
  }

  lemma FeeSplit(f: seq<Line>, b: seq<Line>, f': seq<Line>, b': seq<Line>)
    requires AllIn(f, FeePart) && AllIn(f', FeePart) && AllIn(b, BodyPart) && AllIn(b', BodyPart) && f + b == f' + b'
    ensures f == f' && b == b'
  {
    PartRank(f, FeePart, 0);
    PartRank(f', FeePart, 0);
    PartRank(b, BodyPart, 0);
    PartRank(b', BodyPart, 0);
    SplitOnce(f, b, f', b', 0);
  }

  lemma RenderIn(c: Config, shape: Shape)
    requires shape.Valid()
    ensures AllIn(Render(c, shape).Lines(), BodyPart)
  {
    ShapeNamed(c, shape);
  }

  /** The same summary shows the same fee and the same instructions. */
  lemma SameCore(s: Slots, c: Config, a: seq<Info>, b: seq<Info>)
    requires |a| < TWO_32 && |b| < TWO_32 && Summarised(s, c, a, Printed) && Summarised(s, c, b, Printed)
    ensures AlikeSequences(c, Core(a), Core(b))
  {
    var x, y := Render(c, ShapeOf(Core(a)).value), Render(c, ShapeOf(Core(b)).value);
    ListsUnique(s, FeeLines(a) + x.Lines(), FeeLines(b) + y.Lines());
    FeeNamed(Some(a));
    FeeNamed(Some(b));
    RenderIn(c, ShapeOf(Core(a)).value);
    RenderIn(c, ShapeOf(Core(b)).value);
    FeeSplit(FeeLines(a), x.Lines(), FeeLines(b), y.Lines());
  }

  // A transaction with other instructions behind the same nonce, under the same fee.

  function NonceFront(infos: seq<Info>): seq<Info>
  {
    if HasNonce(infos) then infos[..1] else []
  }

  function BudgetOf(infos: seq<Info>): seq<Info>
  {
    AfterNonce(infos)[..Prefix(AfterNonce(infos))]
  }

  /** Requests for the same fee, whatever the number of instructions. */
  function SameFee(infos: seq<Info>): (budget: seq<Info>)
    requires |infos| < TWO_32
    ensures |budget| <= 2
  {
    var limit, price := LastLimit(BudgetOf(infos)), LastPrice(BudgetOf(infos));
    var signatures := LastSignatures(BudgetOf(infos));
    if limit.None? && price.None? then []
    else
      var fixed := Budget(signatures, UnitLimit(Units(limit, |AfterNonce(infos)|)));
      if price.None? then [fixed] else [fixed, Budget(signatures, UnitPrice(price.value))]
  }

  lemma LastOfOne(x: Info)
    ensures LastLimit([x]) == if x.Budget? && x.request.UnitLimit? then Some(x.request.units) else None
    ensures LastPrice([x]) == if x.Budget? && x.request.UnitPrice? then Some(x.request.price) else None
  {
    assert [x][..0] == [];
  }

  lemma LastOfTwo(x: Info, y: Info)
    requires x.Budget? && x.request.UnitLimit? && y.Budget? && y.request.UnitPrice?
    ensures LastLimit([x, y]) == Some(x.request.units) && LastPrice([x, y]) == Some(y.request.price)
  {
    assert [x, y][..1] == [x];
    LastOfOne(x);
  }

  /** The fee does not depend on the number of instructions any more. */
  lemma SameFeeShown(infos: seq<Info>, n: u32)
    requires |infos| < TWO_32
    ensures FeeOf(SameFee(infos), n) == FeeLines(infos)
  {
    var budget := SameFee(infos);
    if |budget| == 1 {
      LastOfOne(budget[0]);
      assert budget == [budget[0]];
    } else if |budget| == 2 {
      LastOfTwo(budget[0], budget[1]);
      assert budget == [budget[0], budget[1]];
    }
  }

  function Replaced(infos: seq<Info>, core: seq<Info>): seq<Info>
    requires |infos| < TWO_32
  {
    NonceFront(infos) + (SameFee(infos) + core)
  }

  lemma ReplacedRest(infos: seq<Info>, core: seq<Info>)
    requires |infos| < TWO_32 && core != [] && !core[0].Budget? && !Matches(core[0], AnAdvanceNonce)
    ensures AfterNonce(Replaced(infos, core)) == SameFee(infos) + core
    ensures HasNonce(Replaced(infos, core)) == HasNonce(infos)
    ensures HasNonce(infos) ==> Replaced(infos, core)[0] == infos[0]
  {
    var b, rest := Replaced(infos, core), SameFee(infos) + core;
    if HasNonce(infos) {
      assert b[0] == infos[0] && b[1..] == rest;
    } else {
      assert b == rest;
    }
  }

  lemma ReplacedCore(infos: seq<Info>, core: seq<Info>)
    requires |infos| < TWO_32 && 0 < |core| <= 4 && !core[0].Budget? && !Matches(core[0], AnAdvanceNonce)
    ensures |Replaced(infos, core)| < TWO_32 && Core(Replaced(infos, core)) == core
    ensures FeeLines(Replaced(infos, core)) == FeeLines(infos)
  {
    var budget, rest := SameFee(infos), SameFee(infos) + core;
    ReplacedRest(infos, core);
    LeadingIs(rest, |budget|);
    assert rest[..|budget|] == budget && rest[|budget|..] == core;
    SameFeeShown(infos, |rest|);
  }

  lemma RecognisedStarts(b: seq<Info>)
    requires ShapeOf(b).Some?
    ensures 0 < |b| <= 4 && !b[0].Budget?
  {
  }

  lemma AlikeIsNotOverfull(c: Config, a: seq<Info>, b: seq<Info>)
    requires |a| < TWO_32 && |b| < TWO_32 && ShapeOf(Core(a)).Some? && ShapeOf(Core(b)).Some?
    requires FeeLines(a) == FeeLines(b) && AlikeSequences(c, Core(a), Core(b))
    ensures Overfull(c, a) <==> Overfull(c, b)
  {
    LineBudget(c, Core(a));
    LineBudget(c, Core(b));
  }

  lemma SameNonce(s: Slots, c: Config, a: seq<Info>, b: seq<Info>)
    requires ShowsNonce(s, c, a) && HasNonce(a) == HasNonce(b) && (HasNonce(a) ==> b[0] == a[0])
    ensures ShowsNonce(s, c, b)
  {
  }

  lemma AlikeSummarised(s: Slots, c: Config, a: seq<Info>, b: seq<Info>)
    requires |a| < TWO_32 && |b| < TWO_32 && Summarised(s, c, a, Printed) && ShowsNonce(s, c, b)
    requires ShapeOf(Core(b)).Some? && FeeLines(a) == FeeLines(b) && AlikeSequences(c, Core(a), Core(b))
    ensures Summarised(s, c, b, Printed)
  {
    AlikeIsNotOverfull(c, a, b);
  }

  lemma HiddenInSummary(s: Slots, c: Config, a: seq<Info>) returns (b: seq<Info>)
    requires |a| < TWO_32 && Summarised(s, c, a, Printed) && Core(a) != [] && HidesMoves(Core(a))
    ensures |b| < TWO_32 && Summarised(s, c, b, Printed) && Moves(b) != Moves(a)
  {
    var core := HiddenMoves(c, Core(a));
    b := Replaced(a, core);
    RecognisedStarts(core);
    ReplacedRest(a, core);
    ReplacedCore(a, core);
    SameNonce(s, c, a, b);
    AlikeSummarised(s, c, a, b);
    CoreMoves(a);
    CoreMoves(b);
  }

  /** Every message with this summary moves the same. */
  ghost predicate FixesMoves(s: Slots, c: Config, a: seq<Info>)
  {
    forall b :: |b| < TWO_32 && Summarised(s, c, b, Printed) ==> Moves(b) == Moves(a)
  }

  /**
   * A summary tells what its message moves unless what is behind nonce and budget ends with a split
   * or creates an account for tokens.
   */
  lemma SummaryMovesIff(s: Slots, c: Config, a: seq<Info>)
    requires |a| < TWO_32 && Summarised(s, c, a, Printed)
    ensures Core(a) != [] && (FixesMoves(s, c, a) <==> !HidesMoves(Core(a)))
  {
    RecognisedStarts(Core(a));
    if HidesMoves(Core(a)) {
      var b := HiddenInSummary(s, c, a);
    } else {
      forall b | |b| < TWO_32 && Summarised(s, c, b, Printed) ensures Moves(b) == Moves(a) {
        SameCore(s, c, a, b);
        ToldMoves(c, Core(a), Core(b));
        CoreMoves(a);
        CoreMoves(b);
      }
    }
  }
}
