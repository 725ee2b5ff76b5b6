/** TURN ChannelData framing of relayed ciphertext (section 11.4 of RFC 5766). */
module ChannelData {
  import opened Prelude

  const TURN_CHANNEL_HEADER_BYTES: nat := 4
  const TURN_MAX_PAYLOAD_BYTES: nat := 1200

  /** A channel number is sixteen bits wide; the valid ones are 0x4000 to 0x7FFF, which nothing here relies on. */
  type Channel = x: int | 0 <= x < 0x1_0000

  function Encode(channel: Channel, payload: seq<Byte>): Option<seq<Byte>> {
    if |payload| > TURN_MAX_PAYLOAD_BYTES then None
    else Some([channel / 256, channel % 256, |payload| / 256, |payload| % 256] + payload)
  }

  function BigEndian(hi: int, lo: int): int { 256 * hi + lo }

  function Decode(bytes: seq<Byte>): Option<(Channel, seq<Byte>)> {
    if |bytes| < TURN_CHANNEL_HEADER_BYTES then None
    else if |bytes| != TURN_CHANNEL_HEADER_BYTES + BigEndian(bytes[2], bytes[3]) then None
    else Some((BigEndian(bytes[0], bytes[1]), bytes[TURN_CHANNEL_HEADER_BYTES..]))
  }

  /** The layout: channel, then length, both high byte first, then up to 1 200 bytes of payload. */
  lemma Layout(channel: Channel, payload: seq<Byte>)
    ensures Encode(channel, payload).None? <==> |payload| > 1200
    ensures Encode(channel, payload).Some? ==>
              var e := Encode(channel, payload).value;
              && |e| == 4 + |payload| && e[4..] == payload
              && (e[0] as int) * 256 + e[1] as int == channel && (e[2] as int) * 256 + e[3] as int == |payload|
  {
  }

  /** The two are exact inverses: bytes encode a payload if and only if they decode to it and it fits the ceiling. */
  lemma ExactInverse(channel: Channel, payload: seq<Byte>, bytes: seq<Byte>)
    ensures Encode(channel, payload) == Some(bytes)
       <==> Decode(bytes) == Some((channel, payload)) && |payload| <= TURN_MAX_PAYLOAD_BYTES
  {
    if Decode(bytes) == Some((channel, payload)) {
      assert bytes == [bytes[0], bytes[1], bytes[2], bytes[3]] + payload;
    }
  }

  /** A message cut short or padded, however long the cut or the padding, is refused. */
  lemma CutOrPaddedRefused(channel: Channel, payload: seq<Byte>, other: seq<Byte>)
    requires Encode(channel, payload).Some? && other != Encode(channel, payload).value
    requires var whole := Encode(channel, payload).value; other <= whole || whole <= other
    ensures Decode(other) == None
  {
  }
}
