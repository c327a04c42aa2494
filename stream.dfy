/**
 * The append-only binary writer the codec writes into.  Only its interface
 * matters here: every write appends a known byte string to the buffer.
 */
module Stream {
  import opened Wire

  class ByteStream {
    /** Every byte written so far, in order. */
    var buffer: Bytes

    constructor ()
      ensures buffer == []
    {
      buffer := [];
    }

    /** One raw byte (put, and writeBytes of a single byte). */
    method Put(b: byte)
      modifies this
      ensures buffer == old(buffer) + [b]
    {
      buffer := buffer + [b];
    }

    /** Raw bytes, unchanged and in order (putBytes). */
    method PutBytes(bs: Bytes)
      modifies this
      ensures buffer == old(buffer) + bs
    {
      buffer := buffer + bs;
    }

    /** A varint (putVarUint and writeVarUint write the same encoding). */
    method PutVarUint(n: nat)
      modifies this
      ensures buffer == old(buffer) + VarUint(n)
    {
      buffer := buffer + VarUint(n);
    }

    /** A 32-bit unsigned integer in four little-endian bytes (writeUint32). */
    method WriteUint32(n: uint32)
      modifies this
      ensures buffer == old(buffer) + UInt32LE(n)
    {
      buffer := buffer + UInt32LE(n);
    }
  }
}
