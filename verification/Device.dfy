/** The persistent ApduCommand of src/apdu.c and the code that fills it, one APDU at a time. */
module Device {
  import opened Bytes
  import opened Apdu

  class ApduCommand {
    var state: State
    var instruction: byte
    var numPaths: byte
    const words: array<u32>
    var pathLength: nat
    var nonConfirm: bool
    var deprecatedHost: bool
    const message: array<byte>
    var messageLength: nat

    ghost predicate Valid()
      reads this
    {
      && words.Length == MAX_BIP32_PATH_LENGTH && pathLength <= words.Length
      && messageLength <= message.Length
      && (words as object) != message
    }

    ghost function View(): Command
      requires Valid()
      reads this, words, message
    {
      Command(state, instruction, numPaths, words[..pathLength], nonConfirm, deprecatedHost, message[..messageLength])
    }

    /** `capacity` is MAX_MESSAGE_LENGTH, which depends on a packet size that is not part of this model. */
    constructor (capacity: nat)
      ensures Valid() && View() == CLEARED && message.Length == capacity && fresh(words) && fresh(message)
    {
      state, instruction, numPaths, pathLength := Uninitialized, 0, 0, 0;
      nonConfirm, deprecatedHost, messageLength := false, false, 0;
      words := new u32[MAX_BIP32_PATH_LENGTH](_ => 0);
      message := new byte[capacity](_ => 0);
    }

    /** explicit_bzero of the whole structure. */
    method Clear()
      requires Valid()
      modifies this, words, message
      ensures Valid() && View() == CLEARED
    {
      state, instruction, numPaths, pathLength := Uninitialized, 0, 0, 0;
      nonConfirm, deprecatedHost, messageLength := false, false, 0;
      forall i | 0 <= i < words.Length { words[i] := 0; }
      forall i | 0 <= i < message.Length { message[i] := 0; }
    }

    /** read_derivation_path: the words go into the array one by one as the data pointer moves on. */
    method ReadDerivationPath(data: Option<bytes>) returns (reply: Reply)
      requires Valid()
      modifies this`pathLength, words
      ensures Valid()
      ensures match ReadPath(data)
        case Bad(bad) => reply == bad
        case Good(path) => reply == Success && View() == old(View()).(path := path)
    {
      if data.None? {
        return InvalidParameter;
      }
      if |data.value| == 0 {
        return InvalidMessageSize;
      }
      var len := data.value[0];
      var buffer := data.value[1..];
      if len < 1 || len > MAX_BIP32_PATH_LENGTH {
        return InvalidMessage;
      }
      if 1 + 4 * len > |data.value| {
        return InvalidMessageSize;
      }
      ghost var all := buffer;
      var i := 0;
      while i < len
        invariant 0 <= i <= len && buffer == all[4 * i..]
        invariant words[..i] == Words(all, i)
      {
        words[i] := Word(buffer[0..4]);
        assert buffer[0..4] == all[4 * i..4 * (i + 1)];
        buffer := buffer[4..];
        i := i + 1;
      }
      pathLength := len;
      return Success;
    }

    /** The front of a first chunk: how many paths, and the path; `data` is what is left behind the pointer. */
    method ReadFirst(h: Header) returns (reply: Reply, data: Option<bytes>)
      requires Valid() && View() == CLEARED
      modifies this`numPaths, this`pathLength, words
      ensures Valid()
      ensures match ReadFront(h)
        case Bad(bad) => reply == bad
        case Good((path, rest)) =>
          reply == Success && data == Some(rest) && View() == CLEARED.(numPaths := 1, path := path)
    {
      data := h.data;
      if CountsPaths(h) {
        if data.None? || |data.value| == 0 {
          return InvalidMessageSize, None;
        }
        numPaths := data.value[0];
        data := Some(data.value[1..]);
        if numPaths != 1 {
          return InvalidMessage, None;
        }
      } else {
        numPaths := 1;
      }
      reply := ReadDerivationPath(data);
      if reply != Success {
        return reply, None;
      }
      data := Some(data.value[1 + 4 * pathLength..]);
    }

    /** The copy to the end of the message, and the check whether more is expected. */
    method AppendData(h: Header, data: Option<bytes>) returns (reply: Reply)
      requires Valid()
      requires state == InProgress && instruction == h.instruction && nonConfirm == h.NonConfirm()
      requires deprecatedHost == h.deprecatedHost
      modifies this`state, this`messageLength, message
      ensures Valid()
      ensures match Append(old(View()), h, data, message.Length)
        case Bad(bad) => reply == bad
        case Good(d) => reply == Success && View() == d
    {
      if data.Some? {
        if messageLength + |data.value| > message.Length {
          return InvalidMessageSize;
        }
        forall i | 0 <= i < |data.value| { message[messageLength + i] := data.value[i]; }
        assert message[..messageLength + |data.value|] == old(message[..messageLength]) + data.value;
        messageLength := messageLength + |data.value|;
      } else if !IsGetPubkey(h.instruction) {
        return InvalidMessageSize;
      }
      if h.More() {
        return Success;
      }
      state := Complete;
      return Success;
    }

    /** The size prefix of a deprecated sign instruction, then the copy. */
    method TakeData(h: Header, given: Option<bytes>) returns (reply: Reply)
      requires Valid()
      modifies this, message
      ensures Valid()
      ensures match StripLength(h, given)
        case Bad(bad) => reply == bad
        case Good(data) =>
          match Append(old(View()), h, data, message.Length)
          case Bad(bad) => reply == bad
          case Good(d) => reply == Success && View() == d
    {
      var data := given;
      state := InProgress;
      instruction := h.instruction;
      nonConfirm := h.NonConfirm();
      deprecatedHost := h.deprecatedHost;
      if h.instruction == INS_DEPRECATED_SIGN_MESSAGE {
        if data.None? || |data.value| < 2 {
          return InvalidMessageSize;
        }
        var dataLen := BigEndian(data.value[0], data.value[1]);
        data := Some(data.value[2..]);
        if |data.value| != dataLen {
          return InvalidMessageSize;
        }
      }
      reply := AppendData(h, data);
    }

    /** apdu_handle_message after the header has been read. */
    method HandleHeader(h: Header) returns (reply: Reply)
      requires Valid()
      modifies this, words, message
      ensures Valid()
      ensures match Accept(old(View()), h, message.Length)
        case Bad(bad) => reply == bad != Success
        case Good(d) => reply == Success && View() == d
    {
      var data := h.data;
      if IsGetConfig(h.instruction) {
        Clear();
        state := Complete;
        instruction := h.instruction;
        nonConfirm := h.NonConfirm();
        deprecatedHost := h.deprecatedHost;
        return Success;
      } else if IsSign(h.instruction) {
        if h.Extend() {
          if || state != InProgress || instruction != h.instruction || nonConfirm != h.NonConfirm()
             || deprecatedHost != h.deprecatedHost || numPaths != 1
          {
            return InvalidMessage;
          }
        } else {
          Clear();
        }
      } else {
        Clear();
      }
      if !h.Extend() {
        reply, data := ReadFirst(h);
        if reply != Success {
          return reply;
        }
      }
      reply := TakeData(h, data);
    }

    /** handleApdu up to the dispatch: a refused APDU leaves the command cleared. */
    method HandleApdu(rx: int, buffer: bytes) returns (outcome: Outcome)
      requires Valid() && rx <= |buffer|
      modifies this, words, message
      ensures Valid()
      ensures rx < 0 ==> outcome == IoOverflow && View() == old(View())
      ensures rx >= 0 ==>
        var (reply, d) := Step(old(View()), buffer[..rx], message.Length);
        && View() == d
        && outcome == if reply != Success then Refused(reply)
                      else if d.state == InProgress then WaitForMore else Dispatch(d.instruction)
    {
      if rx < 0 {
        return IoOverflow;
      }
      var reply;
      match ParseHeader(buffer[..rx]) {
        case Bad(bad) => reply := bad;
        case Good(h) => reply := HandleHeader(h);
      }
      if reply != Success {
        Clear();
        return Refused(reply);
      }
      if state == InProgress {
        return WaitForMore;
      }
      outcome := Dispatch(instruction);
    }
  }

  datatype Outcome = IoOverflow | Refused(reply: Reply) | WaitForMore | Dispatch(instruction: byte)
}
