/** The Bluetooth transport of the ath3k driver (libbt-ath3k/src/hardware_QCA3002.c): reading one HCI
    event from a byte stream that arrives in pieces of any size, and sending a firmware patch as
    vendor commands of at most 244 bytes each. */
module HciTransport {
  import opened Wrappers

  const HCI_EVENT_PKT: Byte := 0x04
  const HCI_VENDOR_CMD_OGF := 0x3F
  const HCI_PS_CMD_OCF := 0x0B
  const PS_HDR_LEN := 4
  const HCI_PS_CMD_HDR_LEN := 7
  const HCI_MAX_CMD_SIZE := 260
  const WRITE_PATCH: Byte := 8
  const ENABLE_PATCH: Byte := 11
  const MAX_PATCH_CMD := 244

  newtype Byte = x: int | 0 <= x < 256

  // ---- events -----------------------------------------------------------------------------------------

  // The first event in a stream, cut to size bytes, and the position behind what is read of it.
  datatype Event = Event(bytes: seq<Byte>, next: nat)

  // The first packet type of an event at or after p, or the end.
  function Start(s: seq<Byte>, p: nat): (i: nat)
    requires p <= |s|
    ensures p <= i <= |s| && (i < |s| ==> s[i] == HCI_EVENT_PKT) && forall k :: p <= k < i ==> s[k] != HCI_EVENT_PKT
    decreases |s| - p
  {
    if p == |s| || s[p] == HCI_EVENT_PKT then p else Start(s, p + 1)
  }

  // How many parameter bytes are read.
  function Remain(len: Byte, size: int): nat {
    if len as int < size - 3 then len as int else if size > 3 then size - 3 else 0
  }

  function FirstEvent(s: seq<Byte>, p: nat, size: int): (r: Option<Event>)
    requires p <= |s|
    ensures r.Some? ==> p + |r.value.bytes| <= r.value.next <= |s|
  {
    var i := Start(s, p);
    if size <= 0 || i + 3 > |s| then None
    else
      var end := i + 3 + Remain(s[i + 2], size);
      if end > |s| then None else Some(Event(s[i..end], end))
  }

  function Packet(code: Byte, params: seq<Byte>): seq<Byte>
    requires |params| < 256
  {
    [HCI_EVENT_PKT, code, |params| as Byte] + params
  }

  // An event with room for all of it is read as it was sent, with whatever follows left in the
  // stream; with less room it is cut to size, and the rest of it stays in the stream.  Its three
  // header bytes are read even into less.
  lemma EventArrives(seen: seq<Byte>, noise: seq<Byte>, code: Byte, params: seq<Byte>, rest: seq<Byte>, size: int)
    requires |params| < 256 && size >= 1 && 4 !in noise
    ensures var p := [4, code, |params| as Byte] + params;
      var s, i, n := seen + noise + p + rest, |seen| + |noise|, BytesRead(size, |p|);
      FirstEvent(s, |seen|, size) == Some(Event(p[..n], i + n)) && s[i + n..] == p[n..] + rest
  {
    var p := Packet(code, params);
    var s := seen + noise + p + rest;
    StartsBehind(seen, noise, p, rest);
    Inside(seen + noise, p, rest, BytesRead(size, |p|));
  }

  // All of an event or as much as there is room for, but at least its header.
  function BytesRead(size: int, length: nat): (n: nat)
    requires length >= 3
    ensures 3 <= n <= length
    ensures n < length ==> n == size || n == 3 > size
    ensures n == length ==> n <= size || n == 3
  {
    if size >= length then length else if size >= 3 then size else 3
  }

  // An event whose bytes end too early is none.
  lemma EventCutShort(seen: seq<Byte>, noise: seq<Byte>, code: Byte, params: seq<Byte>, m: nat, size: int)
    requires |params| < 256 && size >= 1 && 4 !in noise && m < BytesRead(size, 3 + |params|)
    ensures FirstEvent(seen + noise + ([4, code, |params| as Byte] + params)[..m], |seen|, size) == None
  {
    var p := Packet(code, params);
    if m >= 3 {
      StartsBehind(seen, noise, p[..m], []);
      assert seen + noise + p[..m] + [] == seen + noise + p[..m];
    } else if m > 0 {
      OnlyNoise(seen, noise, p[..m]);
    } else {
      OnlyNoise(seen, noise, []);
    }
  }

  lemma StartsBehind(seen: seq<Byte>, noise: seq<Byte>, p: seq<Byte>, rest: seq<Byte>)
    requires |p| >= 3 && p[0] == HCI_EVENT_PKT && HCI_EVENT_PKT !in noise
    ensures var s, i := seen + noise + p + rest, |seen| + |noise|;
      Start(s, |seen|) == i && s[i + 2] == p[2]
  {
    var s, i := seen + noise + p + rest, |seen| + |noise|;
    assert s[i] == HCI_EVENT_PKT;
    assert forall k :: |seen| <= k < i ==> s[k] == noise[k - |seen|];
    StartIs(s, |seen|, i);
  }

  // Fewer than three bytes behind the noise are no event.
  lemma OnlyNoise(seen: seq<Byte>, noise: seq<Byte>, p: seq<Byte>)
    requires |p| < 3 && HCI_EVENT_PKT !in noise
    ensures FirstEvent(seen + noise + p, |seen|, 1) == None && Start(seen + noise + p, |seen|) >= |seen| + |noise|
  {
    var s := seen + noise + p;
    forall k | |seen| <= k < |seen| + |noise|
      ensures s[k] != HCI_EVENT_PKT
    {
      assert s[k] == noise[k - |seen|];
    }
  }

  lemma Inside(a: seq<Byte>, p: seq<Byte>, rest: seq<Byte>, n: nat)
    requires n <= |p|
    ensures (a + p + rest)[|a|..|a| + n] == p[..n] && (a + p + rest)[|a| + n..] == p[n..] + rest
  {
  }

  lemma {:induction false} StartIs(s: seq<Byte>, p: nat, i: nat)
    requires p <= i < |s| && s[i] == HCI_EVENT_PKT && forall k :: p <= k < i ==> s[k] != HCI_EVENT_PKT
    ensures Start(s, p) == i
    decreases i - p
  {
    if p == i {
    } else {
      StartIs(s, p + 1, i);
    }
  }

  // The file descriptor: the bytes still to come, and how many each read gives at most; a read that
  // gives none is an error.
  class Fd {
    const input: seq<Byte>
    const gives: nat -> nat
    var at: nat
    var calls: nat

    ghost predicate Valid()
      reads this
    {
      at <= |input|
    }

    constructor (input: seq<Byte>, gives: nat -> nat)
      ensures Valid() && at == 0 && this.input == input && this.gives == gives
    {
      this.input, this.gives, at, calls := input, gives, 0, 0;
    }

    method Read(buf: array<Byte>, offset: nat, n: nat) returns (r: int)
      requires Valid() && 0 < n && offset + n <= buf.Length
      modifies this`at, this`calls, buf
      ensures Valid() && r <= n
      ensures r <= 0 ==> (at == |input| || gives(old(calls)) == 0) && at == old(at) && buf[..] == old(buf[..])
      ensures r > 0 ==> at == old(at) + r && buf[..offset + r] == old(buf[..offset]) + input[old(at)..at]
    {
      r := gives(calls);
      calls := calls + 1;
      if r == 0 || at == |input| {
        return 0;
      }
      r := if r > n then n else r;
      r := if r > |input| - at then |input| - at else r;
      forall k | 0 <= k < r {
        buf[offset + k] := input[at + k];
      }
      assert buf[..offset + r] == old(buf[..offset]) + input[at..at + r];
      at := at + r;
    }

    // Read until count reaches total.
    method ReadAll(buf: array<Byte>, from: nat, total: nat) returns (ok: bool)
      requires Valid() && from <= total <= buf.Length
      modifies this`at, this`calls, buf
      ensures Valid() && old(at) <= at
      ensures ok ==> at == old(at) + total - from && buf[..total] == old(buf[..from]) + input[old(at)..at]
      ensures !ok && (forall k :: gives(k) > 0) ==> old(at) + total - from > |input|
    {
      var count := from;
      while count < total
        invariant Valid() && from <= count <= total && at == old(at) + count - from
        invariant buf[..count] == old(buf[..from]) + input[old(at)..at]
        decreases total - count
      {
        ghost var before := at;
        var r := Read(buf, count, total - count);
        if r <= 0 {
          return false;
        }
        assert input[old(at)..at] == input[old(at)..before] + input[before..at];
        count := count + r;
      }
      return true;
    }

    // Skip to the packet type of an event.
    method FindStart(buf: array<Byte>) returns (ok: bool)
      requires Valid() && buf.Length >= 1
      modifies this`at, this`calls, buf
      ensures Valid() && old(at) <= at
      ensures ok ==> at == Start(input, old(at)) + 1 && buf[0] == HCI_EVENT_PKT == input[at - 1]
      ensures !ok && (forall k :: gives(k) > 0) ==> Start(input, old(at)) == |input|
    {
      while true
        invariant Valid() && old(at) <= at
        invariant Start(input, at) == Start(input, old(at))
        decreases |input| - at
      {
        ghost var before := at;
        var r := Read(buf, 0, 1);
        if r <= 0 {
          return false;
        }
        assert buf[..1][0] == input[before];
        if buf[0] == HCI_EVENT_PKT {
          return true;
        }
      }
    }

    // The event code and the parameter length, behind the packet type.
    method ReadHeader(buf: array<Byte>) returns (ok: bool)
      requires Valid() && buf.Length >= 3 && at > 0 && buf[0] == input[at - 1]
      modifies this`at, this`calls, buf
      ensures Valid() && old(at) <= at
      ensures ok ==> at == old(at) + 2 && buf[..3] == input[old(at) - 1..at]
      ensures !ok && (forall k :: gives(k) > 0) ==> old(at) + 2 > |input|
    {
      assert buf[..1] == input[at - 1..at];
      ok := ReadAll(buf, 1, 3);
    }

    // However the reads are split, the result is the first event.  Into a buffer of one or two bytes the
    // source reads the event code and the length all the same; overrun says so, and the model stops there.
    method ReadHciEvent(buf: array<Byte>, size: int) returns (ret: int, overrun: bool)
      requires Valid() && buf.Length >= size
      modifies this`at, this`calls, buf
      ensures Valid() && old(at) <= at && (ret == -1 || 3 <= ret <= buf.Length)
      ensures ret != -1 ==> FirstEvent(input, old(at), size) == Some(Event(buf[..ret], at))
      ensures (forall k :: gives(k) > 0) && !overrun ==> (ret == -1 <==> FirstEvent(input, old(at), size) == None)
      ensures overrun ==> ret == -1 && 0 < size && buf.Length < 3
      ensures (forall k :: gives(k) > 0) && 0 < size && buf.Length < 3 ==>
        (overrun <==> Start(input, old(at)) < |input|)
    {
      overrun := false;
      if size <= 0 {
        return -1, overrun;
      }
      var ok := FindStart(buf);
      if !ok {
        return -1, overrun;
      }
      if buf.Length < 3 {
        return -1, true;
      }
      ghost var i := at - 1;
      ok := ReadHeader(buf);
      if !ok {
        return -1, overrun;
      }
      assert buf[2] == buf[..3][2] == input[i + 2];
      var remain := if buf[2] as int < size - 3 then buf[2] as int else size - 3;
      var total := 3 + if remain > 0 then remain else 0;
      ok := ReadAll(buf, 3, total);
      if !ok {
        return -1, overrun;
      }
      OneAfterAnother(input, i, i + 3, at);
      return total, overrun;
    }
  }

  // A buffer of two bytes, and a packet type to read.
  method TwoBytesAreTooFew() returns (ret: int, overrun: bool)
    ensures overrun
  {
    var fd := new Fd([HCI_EVENT_PKT], _ => 1);
    var buf := new Byte[2];
    ret, overrun := fd.ReadHciEvent(buf, 2);
  }

  lemma OneAfterAnother(s: seq<Byte>, a: nat, b: nat, c: nat)
    requires a <= b <= c <= |s|
    ensures s[a..b] + s[b..c] == s[a..c]
  {
  }

  // ---- patch download -------------------------------------------------------------------------------------

  // cmd_opcode_pack, then the low byte first.
  const OPCODE := HCI_PS_CMD_OCF + HCI_VENDOR_CMD_OGF * 1024

  function Command(op: Byte, index: nat, data: seq<Byte>): (r: seq<Byte>)
    requires |data| + PS_HDR_LEN < 256
    ensures |r| == HCI_PS_CMD_HDR_LEN + |data|
  {
    [(OPCODE % 256) as Byte, (OPCODE / 256) as Byte, (|data| + PS_HDR_LEN) as Byte,
     op, (index % 256) as Byte, (index / 256 % 256) as Byte, |data| as Byte] + data
  }

  // What the controller makes of a command.
  datatype Received = Received(opcode: nat, plen: nat, op: Byte, index: nat, data: seq<Byte>)

  function Receive(cmd: seq<Byte>): Option<Received> {
    if |cmd| < HCI_PS_CMD_HDR_LEN || |cmd| != HCI_PS_CMD_HDR_LEN + cmd[6] as int then None
    else Some(Received(cmd[0] as int + 256 * cmd[1] as int, cmd[2] as int, cmd[3],
                       cmd[4] as int + 256 * cmd[5] as int, cmd[7..]))
  }

  // The header of a command: opcode 0xFC0B and index with the low byte first, both lengths and the
  // operation.
  lemma CommandBytes(op: Byte, index: nat, data: seq<Byte>)
    requires |data| + 4 < 256
    ensures Command(op, index, data) ==
      [0x0B, 0xFC, (|data| + 4) as Byte, op, (index % 256) as Byte, (index / 256 % 256) as Byte, |data| as Byte] + data
  {
    assert OPCODE == 0xFC0B;
  }

  lemma CommandIsReceived(op: Byte, index: nat, data: seq<Byte>)
    requires |data| + PS_HDR_LEN < 256
    ensures Receive(Command(op, index, data)) ==
      Some(Received(0xFC0B, |data| + 4, op, index % 65536, data))
  {
    var cmd := Command(op, index, data);
    assert cmd[7..] == data;
    assert index % 65536 == index % 256 + 256 * (index / 256 % 256);
  }

  // How many commands n bytes of patch take.
  function Chunks(n: int): (r: nat)
    ensures if n <= 0 then r == 0 else MAX_PATCH_CMD * (r - 1) < n <= MAX_PATCH_CMD * r
  {
    if n <= 0 then 0 else 1 + Chunks(n - MAX_PATCH_CMD)
  }

  // The end of the first k chunks.
  function End(n: int, k: nat): nat {
    if k < Chunks(n) then MAX_PATCH_CMD * k else if n > 0 then n else 0
  }

  // The first k commands for n bytes of patch.
  function Commands(data: seq<Byte>, n: int, k: nat): (r: seq<seq<Byte>>)
    requires k <= Chunks(n) && End(n, k) <= |data|
    ensures |r| == k
  {
    if k == 0 then []
    else
      ChunkBounds(n, k - 1);
      Commands(data, n, k - 1) + [Command(WRITE_PATCH, k - 1, data[End(n, k - 1)..End(n, k)])]
  }

  function Payload(cmds: seq<seq<Byte>>): seq<Byte> {
    if cmds == [] then []
    else
      Payload(cmds[..|cmds| - 1]) +
      match Receive(cmds[|cmds| - 1]) case Some(r) => r.data case None => []
  }

  lemma ChunkBounds(n: int, k: nat)
    requires k < Chunks(n)
    ensures MAX_PATCH_CMD * k == End(n, k) < End(n, k + 1) <= n
    ensures End(n, k + 1) == if n < MAX_PATCH_CMD * (k + 1) then n else MAX_PATCH_CMD * (k + 1)
  {
  }

  lemma NextChunk(data: seq<Byte>, n: int, k: nat)
    requires k < Chunks(n) && End(n, k + 1) <= |data|
    ensures End(n, k) <= End(n, k + 1)
    ensures Payload(Commands(data, n, k + 1)) == Payload(Commands(data, n, k)) + data[End(n, k)..End(n, k + 1)]
  {
    ChunkBounds(n, k);
    var chunk := data[End(n, k)..End(n, k + 1)];
    CommandIsReceived(WRITE_PATCH, k, chunk);
    OneMore(Commands(data, n, k), Command(WRITE_PATCH, k, chunk));
  }

  // The first k commands carry the patch as far as they go.
  ghost predicate Carried(data: seq<Byte>, n: int, k: nat) {
    k <= Chunks(n) && End(n, k) <= |data| && Payload(Commands(data, n, k)) == data[..End(n, k)]
  }

  lemma NextIsCarried(data: seq<Byte>, n: int, k: nat)
    requires k < Chunks(n) && End(n, k + 1) <= |data| && Carried(data, n, k)
    ensures Carried(data, n, k + 1)
  {
    NextChunk(data, n, k);
    OneAfterAnother(data, 0, End(n, k), End(n, k + 1));
  }

  lemma {:induction false} AllAreCarried(data: seq<Byte>, n: int, k: nat)
    requires k <= Chunks(n) && End(n, k) <= |data|
    ensures Carried(data, n, k)
  {
    if k == 0 {
      assert End(n, 0) == 0;
    } else {
      ChunkBounds(n, k - 1);
      AllAreCarried(data, n, k - 1);
      NextIsCarried(data, n, k - 1);
    }
  }

  // The controller gets the patch back by putting the payloads together, as far as it was sent.
  lemma PatchReassembles(data: seq<Byte>, n: int, k: nat)
    requires k <= Chunks(n) && End(n, k) <= |data|
    ensures Payload(Commands(data, n, k)) == data[..End(n, k)]
    ensures End(n, k) == if n <= 0 then 0 else if 244 * k < n then 244 * k else n
    ensures k == Chunks(n) && n >= 0 ==> End(n, k) == n
  {
    AllAreCarried(data, n, k);
  }

  lemma OneMore(cmds: seq<seq<Byte>>, cmd: seq<Byte>)
    ensures Payload(cmds + [cmd]) == Payload(cmds) + match Receive(cmd) case Some(r) => r.data case None => []
  {
    assert (cmds + [cmd])[..|cmds|] == cmds;
  }

  // Command i is a patch write with index i modulo 65536, and its parameter length is four more than
  // that of its payload, which only the last command may have less than 244 of.
  lemma {:induction false} CommandAt(data: seq<Byte>, n: int, k: nat, i: nat)
    requires i < k <= Chunks(n) && End(n, k) <= |data|
    ensures Receive(Commands(data, n, k)[i]).Some?
    ensures var r := Receive(Commands(data, n, k)[i]).value;
      && r.opcode == 0xFC0B && r.op == 8 && r.index == i % 65536
      && r.plen == |r.data| + 4 <= 248 && 0 < |r.data|
      && (i < Chunks(n) - 1 ==> |r.data| == 244)
  {
    ChunkBounds(n, k - 1);
    if i == k - 1 {
      CommandIsReceived(WRITE_PATCH, i, data[End(n, i)..End(n, k)]);
    } else {
      CommandAt(data, n, k - 1, i);
    }
  }

  predicate Consecutive(cmds: seq<seq<Byte>>) {
    forall i :: 0 <= i < |cmds| ==> HasIndex(cmds[i], i)
  }

  predicate HasIndex(cmd: seq<Byte>, index: int) {
    match Receive(cmd) case Some(r) => r.index == index case None => false
  }

  // The indices count up from zero exactly if the patch takes no more than 65536 commands.
  lemma IndicesAreConsecutive(data: seq<Byte>, n: int)
    requires End(n, Chunks(n)) <= |data|
    ensures Consecutive(Commands(data, n, Chunks(n))) <==> Chunks(n) <= 65536
  {
    var cmds := Commands(data, n, Chunks(n));
    forall i | 0 <= i < |cmds|
      ensures HasIndex(cmds[i], i % 65536)
    {
      CommandAt(data, n, Chunks(n), i);
    }
    CountingWraps(cmds, 65536);
  }

  // A patch that takes one command more.
  lemma OneCommandTooMany(data: seq<Byte>)
    requires |data| == 65536 * MAX_PATCH_CMD + 1
    ensures Chunks(|data|) == 65537 && !Consecutive(Commands(data, |data|, 65537))
  {
    IndicesAreConsecutive(data, |data|);
  }

  lemma CountingWraps(cmds: seq<seq<Byte>>, wrap: nat)
    requires wrap > 0 && forall i :: 0 <= i < |cmds| ==> HasIndex(cmds[i], i % wrap)
    ensures Consecutive(cmds) <==> |cmds| <= wrap
  {
    if |cmds| > wrap {
      assert HasIndex(cmds[wrap], wrap % wrap) && wrap % wrap == 0;
      assert !HasIndex(cmds[wrap], wrap);
    } else {
      forall i | 0 <= i < |cmds| ensures HasIndex(cmds[i], i) {
        assert i % wrap == i;
      }
    }
  }

  // load_hci_ps_hdr
  method LoadHciPsHdr(cmd: array<Byte>, op: Byte, len: nat, index: nat)
    requires cmd.Length >= HCI_PS_CMD_HDR_LEN && len + PS_HDR_LEN < 256
    modifies cmd
    ensures forall data :: |data| == len ==> cmd[..7] == Command(op, index, data)[..7]
    ensures cmd[..7] ==
      [0x0B, 0xFC, (len + 4) as Byte, op, (index % 256) as Byte, (index / 256 % 256) as Byte, len as Byte]
    ensures forall k :: 7 <= k < cmd.Length ==> cmd[k] == old(cmd[k])
  {
    cmd[0] := (OPCODE % 256) as Byte;
    cmd[1] := (OPCODE / 256) as Byte;
    cmd[2] := (len + PS_HDR_LEN) as Byte;
    cmd[3] := op;
    cmd[4] := (index % 256) as Byte;
    cmd[5] := (index / 256 % 256) as Byte;
    cmd[6] := len as Byte;
  }

  method NextBytes(patch: seq<Byte>, at: nat, len: nat) returns (data: array<Byte>)
    requires len <= MAX_PATCH_CMD && at + len <= |patch|
    ensures fresh(data) && data.Length == MAX_PATCH_CMD && data[..len] == patch[at..at + len]
  {
    data := new Byte[MAX_PATCH_CMD];
    var i := 0;
    while i < len
      invariant 0 <= i <= len && data[..i] == patch[at..at + i]
    {
      data[i] := patch[at + i];
      i := i + 1;
    }
  }

  // Fill one command with the next len bytes of the patch.
  method BuildCommand(index: nat, patch: seq<Byte>, at: nat, len: nat) returns (command: seq<Byte>)
    requires len <= MAX_PATCH_CMD && at + len <= |patch|
    ensures command == Command(WRITE_PATCH, index, patch[at..at + len])
  {
    var cmd := new Byte[HCI_MAX_CMD_SIZE];
    var data := NextBytes(patch, at, len);
    LoadHciPsHdr(cmd, WRITE_PATCH, len, index);
    forall k | 0 <= k < len {
      cmd[HCI_PS_CMD_HDR_LEN + k] := data[k];
    }
    command := cmd[..HCI_PS_CMD_HDR_LEN + len];
    assert command[..7] == cmd[..7] && command[7..] == data[..len];
    HeaderAndData(command, WRITE_PATCH, index, patch[at..at + len]);
  }

  lemma HeaderAndData(command: seq<Byte>, op: Byte, index: nat, data: seq<Byte>)
    requires |data| + PS_HDR_LEN < 256 && |command| == HCI_PS_CMD_HDR_LEN + |data|
    requires command[..7] == Command(op, index, data)[..7] && command[7..] == data
    ensures command == Command(op, index, data)
  {
    assert command == command[..7] + command[7..];
  }

  // The command of write_ps_cmd that ends a download.
  method EnableCommand() returns (command: seq<Byte>)
    ensures command == Command(ENABLE_PATCH, 0, []) == [0x0B, 0xFC, 4, 11, 0, 0, 0]
  {
    var cmd := new Byte[HCI_MAX_CMD_SIZE];
    LoadHciPsHdr(cmd, ENABLE_PATCH, 0, 0);
    command := cmd[..HCI_PS_CMD_HDR_LEN];
    assert Command(ENABLE_PATCH, 0, [])[..7] == Command(ENABLE_PATCH, 0, []);
  }

  // What the controller took before a failure: the patch ends within the next chunk, or the
  // controller refuses the next command.
  ghost predicate StoppedAt(byteCnt: int, patch: seq<Byte>, takes: nat -> bool, k: nat) {
    if k < Chunks(byteCnt) then End(byteCnt, k + 1) > |patch| || !takes(k) else k == Chunks(byteCnt) && !takes(k)
  }

  lemma ChunkToSend(n: int, k: nat, left: int)
    requires left == n - MAX_PATCH_CMD * k > 0 && k <= Chunks(n)
    ensures k < Chunks(n) && End(n, k) == MAX_PATCH_CMD * k
    ensures End(n, k + 1) == MAX_PATCH_CMD * k + (if left > MAX_PATCH_CMD then MAX_PATCH_CMD else left)
    ensures End(n, k + 1) <= End(n, Chunks(n))
  {
    ChunkBounds(n, k);
  }

  // ps_patch_download behind the lines about locations.  patch is what the rest of the file decodes
  // to, which may be less than the byteCnt bytes announced; takes says which commands the controller takes.
  method PsPatchDownload(byteCnt: int, patch: seq<Byte>, takes: nat -> bool) returns (ret: int, sent: seq<seq<Byte>>)
    ensures ret >= 0 <==>
      End(byteCnt, Chunks(byteCnt)) <= |patch| && forall k: nat :: k <= Chunks(byteCnt) ==> takes(k)
    ensures ret >= 0 ==>
      && ret == Chunks(byteCnt)
      && sent == Commands(patch, byteCnt, ret) + [Command(ENABLE_PATCH, 0, [])]
    ensures ret < 0 ==>
      && ret == -1 && |sent| <= Chunks(byteCnt) && End(byteCnt, |sent|) <= |patch|
      && sent == Commands(patch, byteCnt, |sent|)
      && StoppedAt(byteCnt, patch, takes, |sent|) && forall k: nat :: k < |sent| ==> takes(k)
  {
    sent := [];
    var cnt := byteCnt;
    var patchCount := 0;
    while cnt > 0
      invariant patchCount == |sent| && cnt == byteCnt - MAX_PATCH_CMD * patchCount
      invariant patchCount <= Chunks(byteCnt)
      invariant End(byteCnt, patchCount) <= |patch| && sent == Commands(patch, byteCnt, patchCount)
      invariant forall k: nat :: k < patchCount ==> takes(k)
      decreases cnt
    {
      ChunkToSend(byteCnt, patchCount, cnt);
      var len := if cnt > MAX_PATCH_CMD then MAX_PATCH_CMD else cnt;
      var at := MAX_PATCH_CMD * patchCount;
      if at + len > |patch| {
        return -1, sent;
      }
      var cmd := BuildCommand(patchCount, patch, at, len);
      if !takes(patchCount) {
        return -1, sent;
      }
      sent := sent + [cmd];
      patchCount := patchCount + 1;
      cnt := cnt - MAX_PATCH_CMD;
    }
    var cmd := EnableCommand();
    if !takes(patchCount) {
      return -1, sent;
    }
    sent := sent + [cmd];
    ret := patchCount;
  }
}
