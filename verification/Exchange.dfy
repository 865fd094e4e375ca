/** A whole exchange: agreement, message, verdict. */
module Exchange {
  import opened Bytes
  import opened Radix
  import opened Base58
  import opened Wire
  import opened Instructions
  import opened Summary
  import opened Display
  import opened Message
  import opened Handler
  import opened Swap
  import opened SwapSafety

  /** Exited stands for the end of the application on an attempt to sign twice. */
  datatype Verdict = NoVerdict | Exited | Refused | Approved

  /** The message is the agreed transfer. */
  ghost predicate Agreed(env: Environment, setting: Setting, message: bytes, v: Option<Validated>)
    requires ReadHeader(message).Some? && ReadHeader(message).value.0.Whole()
  {
    var (h, body) := ReadHeader(message).value;
    var infos := BodyInfos(env, h, body);
    v.Some? && infos.Some? && IsSwap(setting.Options(h), infos.value, v.value)
  }

  /** A message of this exchange is approved exactly when it is the agreed transfer. */
  ghost predicate Judges(verdict: Verdict, env: Environment, setting: Setting, message: bytes, v: Option<Validated>)
  {
    && ReadHeader(message).Some? && ReadHeader(message).value.0.Whole()
    && verdict in {Refused, Approved} && (verdict == Approved <==> Agreed(env, setting, message, v))
  }

  lemma PreparedIsJudged(s: Slots, env: Environment, setting: Setting, message: bytes, v: Option<Validated>)
    requires ReadHeader(message).Some? && ReadHeader(message).value.0.Whole()
    requires var (h, body) := ReadHeader(message).value;
      Prepared(s, setting.Options(h), BodyInfos(env, h, body), setting.hash)
    ensures s[PRIMARY] != Unset && Showable(s)
    ensures SwapMatches(s, v) <==> Agreed(env, setting, message, v)
  {
    var (h, body) := ReadHeader(message).value;
    var c, infos := setting.Options(h), BodyInfos(env, h, body);
    PreparedIsFinal(s, c, infos, setting.hash);
    PreparedIsShowable(s, c, infos, setting.hash);
    SwapIff(s, c, infos, setting.hash, v);
  }

  /** The globals of an exchange. */
  class Session {
    var validated: Option<Validated>
    var responseReady: bool

    constructor ()
      ensures validated == None && !responseReady
    {
      validated, responseReady := None, false;
    }

    /** copy_transaction_parameters: no configuration, an empty extra id, an address and an amount. */
    method CopyParameters(configured: bool, extraId: Option<string>, address: cstring, amount: bytes) returns (ok: bool)
      modifies this
      ensures ok <==> !configured && extraId == Some("") && |amount| <= 8
      ensures ok ==> validated.Some? && !responseReady
      ensures ok ==> validated.value.amount == Value(amount, 256) && validated.value.recipient == Kept(address)
      ensures !ok ==> validated == old(validated) && responseReady == old(responseReady)
    {
      if configured || extraId.None? || extraId.value != "" {
        return false;
      }
      var value;
      ok, value := SwapStrToU64(amount);
      if ok {
        validated, responseReady := Some(Validated(value, Kept(address))), false;
      }
    }

    /** handle_sign_message_ui for an exchange; a second call ends the application. */
    method HandleUi(summary: TransactionSummary) returns (verdict: Verdict)
      requires summary.Valid() && Showable(summary.Slots())
      modifies this`responseReady
      ensures verdict == NoVerdict <==> summary.primary == Unset
      ensures responseReady == (old(responseReady) || verdict != NoVerdict)
      ensures verdict == Exited <==> summary.primary != Unset && old(responseReady)
      ensures verdict == Approved <==>
        summary.primary != Unset && !old(responseReady) && SwapMatches(summary.Slots(), validated)
    {
      var kinds := new Kind[MAX_SUMMARY_ITEMS](_ => KindNone);
      var title, text := new char[TITLE_SIZE], new char[TEXT_BUFFER_LENGTH];
      var final, steps := summary.Finalize(kinds);
      if !final {
        return NoVerdict;
      }
      if responseReady {
        return Exited;
      }
      responseReady := true;
      var valid := CheckSwapValidity(summary, kinds, steps, validated, title, text);
      verdict := if valid then Approved else Refused;
    }

    /**
     * handle_sign_message_parse_message and handle_sign_message_ui after each other: of all messages
     * that get to the check exactly the agreed transfers are approved, and at most one of them.
     */
    method Sign(summary: TransactionSummary, env: Environment, setting: Setting, message: bytes, nonConfirm: bool)
      returns (reply: Reply, verdict: Verdict)
      requires summary.Valid()
      modifies this`responseReady, summary, summary.general
      ensures reply != Ready ==> verdict == NoVerdict && responseReady == old(responseReady)
      ensures reply == Ready ==> responseReady && (verdict == Exited <==> old(responseReady))
      ensures reply == Ready && !old(responseReady) ==> Judges(verdict, env, setting, message, validated)
    {
      reply := ParseMessage(summary, env, setting, message, nonConfirm);
      verdict := NoVerdict;
      if reply == Ready {
        PreparedIsJudged(summary.Slots(), env, setting, message, validated);
        verdict := HandleUi(summary);
      }
    }
  }

  /** A whole exchange, from its parameters to the verdict on a message. */
  method Run(configured: bool, extraId: Option<string>, address: cstring, amount: bytes, summary: TransactionSummary,
      env: Environment, setting: Setting, message: bytes, nonConfirm: bool)
    returns (accepted: bool, reply: Reply, verdict: Verdict)
    requires summary.Valid()
    modifies summary, summary.general
    ensures accepted <==> !configured && extraId == Some("") && |amount| <= 8
    ensures !accepted ==> verdict == NoVerdict
    ensures accepted && reply == Ready ==>
      && 0 <= Value(amount, 256) < TWO_64
      && Judges(verdict, env, setting, message, Some(Validated(Value(amount, 256), Kept(address))))
  {
    var session := new Session();
    reply, verdict := InvalidMessage, NoVerdict;
    accepted := session.CopyParameters(configured, extraId, address, amount);
    if accepted {
      reply, verdict := session.Sign(summary, env, setting, message, nonConfirm);
    }
  }

  /** What a verdict means for the address that was agreed on; an address of up to 44 characters is kept whole. */
  lemma AddressJudged(verdict: Verdict, env: Environment, setting: Setting, message: bytes, amount: u64,
      address: cstring)
    requires Judges(verdict, env, setting, message, Some(Validated(amount, Kept(address))))
    ensures var (h, body) := ReadHeader(message).value;
      var infos := BodyInfos(env, h, body);
      verdict == Approved <==>
        infos.Some? && exists to: key32 ::
          Encoded(to) == Kept(address) && IsSwapTo(setting.Options(h), infos.value, amount, to)
    ensures forall to: key32, to': key32 :: Encoded(to) == Kept(address) == Encoded(to') ==> to == to'
    ensures Kept(address) == address <==> |address| <= 44
  {
    var (h, body) := ReadHeader(message).value;
    var infos := BodyInfos(env, h, body);
    if infos.Some? {
      SwapGoesTo(setting.Options(h), infos.value, Validated(amount, Kept(address)));
    }
    forall to: key32, to': key32 | Encoded(to) == Kept(address) == Encoded(to') ensures to == to' {
      Injective(to, to');
    }
  }

  /** The address of a key: approved exactly for transfers to that key. */
  lemma KeyJudged(verdict: Verdict, env: Environment, setting: Setting, message: bytes, amount: u64, to: key32)
    requires Judges(verdict, env, setting, message, Some(Validated(amount, Kept(Encoded(to)))))
    ensures var (h, body) := ReadHeader(message).value;
      var infos := BodyInfos(env, h, body);
      verdict == Approved <==> infos.Some? && IsSwapTo(setting.Options(h), infos.value, amount, to)
  {
    NoNul(to);
    AddressJudged(verdict, env, setting, message, amount, Encoded(to));
    KeyKept(to);
  }

  /**
   * An address that goes on behind the 44 characters of a key is no key's address, and yet it is
   * kept as the address of that key, so that transfers to that key are approved.
   */
  lemma LongAddress(key: key32, more: string)
    requires |Encoded(key)| == 44 && more != ""
    ensures Kept(Encoded(key) + more) == Kept(Encoded(key))
    ensures forall other: key32 :: Encoded(other) != Encoded(key) + more
  {
    KeyKept(key);
    forall other: key32 ensures Encoded(other) != Encoded(key) + more {
      KeyFits(other);
    }
  }

  /** A text that goes on behind a key's address is no address, and yet transfers to that key are approved. */
  lemma LongAddressJudged(verdict: Verdict, env: Environment, setting: Setting, message: bytes, amount: u64, to: key32,
      more: string)
    requires |Encoded(to)| == 44 && more != ""
    requires Judges(verdict, env, setting, message, Some(Validated(amount, Kept(Encoded(to) + more))))
    ensures var (h, body) := ReadHeader(message).value;
      var infos := BodyInfos(env, h, body);
      verdict == Approved <==> infos.Some? && IsSwapTo(setting.Options(h), infos.value, amount, to)
  {
    LongAddress(to, more);
    KeyJudged(verdict, env, setting, message, amount, to);
  }

  /** There is such a key. */
  lemma LongAddressExists()
    ensures exists key: key32 :: |Encoded(key)| == 44 && Kept(Encoded(key) + "x") == Kept(Encoded(key))
  {
    LongestText();
    var key: key32 := [255] + seq(31, _ => 0);
    LongAddress(key, "x");
  }
}
