/** The claim-check reference: a magic prefix followed by the blob's key. */
module ClaimCheck {
  import opened Types

  newtype Byte = n: int | 0 <= n < 256

  /** NUL, "WLCC", version 1. */
  const MAGIC: seq<Byte> := [0, 0x57, 0x4C, 0x43, 0x43, 1]

  function MakeReference(key: seq<Byte>): seq<Byte> {
    MAGIC + key
  }

  predicate IsReference(payload: seq<Byte>) {
    MAGIC <= payload
  }

  /** The key, if the rest of the payload is text as `utf8` judges it. */
  function ReferenceKey(utf8: seq<Byte> -> bool, payload: seq<Byte>): Option<seq<Byte>> {
    if IsReference(payload) && utf8(payload[|MAGIC|..]) then Some(payload[|MAGIC|..]) else None
  }

  /** A payload carries a key exactly when it is the reference made for that key. */
  lemma ReferenceIff(utf8: seq<Byte> -> bool, payload: seq<Byte>, key: seq<Byte>)
    ensures ReferenceKey(utf8, payload) == Some(key) <==> utf8(key) && payload == MakeReference(key)
  {
  }

  /** A payload that starts as JSON does is never taken for a reference. */
  lemma JsonIsNoReference(utf8: seq<Byte> -> bool, payload: seq<Byte>)
    requires payload == [] || payload[0] != 0
    ensures ReferenceKey(utf8, payload) == None
  {
  }
}
