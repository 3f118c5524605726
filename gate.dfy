/**
 * gate: the message-id layout shared by the gate and the servers behind
 * it. Bits 16-23 of a message id name the server type it belongs to.
 */
module Gate {
  /** The value range of Go's uint8. */
  type Byte = b: int | 0 <= b < 256

  const INT32_MIN: int := -0x8000_0000
  const INT32_MAX: int := 0x7FFF_FFFF

  type ServerType = Byte

  const ServerTypeGate: ServerType := 1
  const SentryServerType: ServerType := 2
  const ClientAuthorMsgId: int := 0x10001
  const ToClientAuthorResultMsgId: int := 0x10002
  const ClientPingMsgId: int := 0x10003
  const ToClientPongMsgId: int := 0x10004
  const ErrorMsgId: int := 0x18000

  /** uint32(x) for an int32 x: the two's-complement bit pattern. */
  function Uint32Of(x: int): (r: nat)
    requires INT32_MIN <= x <= INT32_MAX
    ensures r < 0x1_0000_0000
    ensures x >= 0 ==> r == x
    ensures x < 0 ==> r == x + 0x1_0000_0000
  {
    if x < 0 then x + 0x1_0000_0000 else x
  }

  /** GetAppId: bits 16-23 of the message id, (messageId >> 16) & 0xFF. */
  function GetAppId(messageId: int): (r: ServerType)
    requires INT32_MIN <= messageId <= INT32_MAX
    ensures 0 <= messageId ==> r == (messageId / 0x10000) % 0x100
  {
    (Uint32Of(messageId) / 0x10000) % 0x100
  }

  /** IsGateMessage: the id belongs to the gate itself. */
  predicate IsGateMessage(messageId: int)
    requires INT32_MIN <= messageId <= INT32_MAX
  {
    GetAppId(messageId) == ServerTypeGate
  }

  /** IsCluster: the gate's own type, or any type with bit 0x80 set. */
  predicate IsCluster(appId: ServerType) {
    appId == ServerTypeGate || (appId / 0x80) % 2 == 1
  }

  /** Bit 0x80 of a byte is set exactly for the values 128 and above. */
  lemma IsClusterRange(appId: ServerType)
    ensures IsCluster(appId) <==> appId == 1 || appId >= 128
  {
  }

  /**
   * The application id sits in bits 16-23: the word c * 0x10000 + low, read
   * as an int32 (negative once c reaches 0x80), gives c back for every
   * byte c and any low part below 0x10000.
   */
  lemma {:induction false} AppIdOfLayout(c: Byte, low: nat)
    requires low < 0x10000
    ensures var w := c * 0x10000 + low;
      GetAppId(if w > INT32_MAX then w - 0x1_0000_0000 else w) == c
  {
    var w := c * 0x10000 + low;
    assert w < 0x1_0000_0000;
    var id := if w > INT32_MAX then w - 0x1_0000_0000 else w;
    assert Uint32Of(id) == w;
    assert w / 0x10000 == c by {
      assert c * 0x10000 <= w < (c + 1) * 0x10000;
    }
  }

  /** The ids of the package's test table: 0x10001, 0x20001 and 0x30001 give 1, 2 and 3. */
  lemma GetAppIdExamples()
    ensures GetAppId(0x10001) == 1 && GetAppId(0x20001) == 2 && GetAppId(0x30001) == 3
  {
    AppIdOfLayout(1, 1);
    AppIdOfLayout(2, 1);
    AppIdOfLayout(3, 1);
  }

  /** The gate's own message ids are gate messages. */
  lemma GateIdsAreGateMessages()
    ensures IsGateMessage(ClientAuthorMsgId) && IsGateMessage(ToClientAuthorResultMsgId)
    ensures IsGateMessage(ClientPingMsgId) && IsGateMessage(ToClientPongMsgId)
    ensures IsGateMessage(ErrorMsgId)
  {
    AppIdOfLayout(1, 1);
    AppIdOfLayout(1, 2);
    AppIdOfLayout(1, 3);
    AppIdOfLayout(1, 4);
    AppIdOfLayout(1, 0x8000);
  }
}
