module Common {
  datatype Option<+T> = None | Some(value: T)

  /** Text as the Go program has it: bytes. */
  type Byte = b: int | 0 <= b < 256
  type Text = seq<Byte>

  /** The bytes of an ASCII string. */
  function Ascii(s: string): (t: Text)
    requires forall i | 0 <= i < |s| :: s[i] as int < 128
    ensures |t| == |s| && forall i | 0 <= i < |s| :: t[i] == s[i] as int
  {
    seq(|s|, i requires 0 <= i < |s| => s[i] as int)
  }

  type OrderId = nat

  /** What an order event is about: the topic it is published to. */
  datatype Kind = Creation | Confirmation | Cancellation
}
