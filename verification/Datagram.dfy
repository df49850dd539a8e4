/** Local memory of the datagram transport: every block keeps room for the
    routing header the adapter writes in front of the payload. */
module Datagram {
  import opened Allocator
  import opened Options
  import opened Memory

  const UD_OFFSET := 40

  class UnreliableRDMA {
    const memory: BaseMemory

    constructor (memory: BaseMemory)
      ensures this.memory == memory
    {
      this.memory := memory;
    }

    /** Address of the payload, or the exception of the original. The payload and
        the 40 bytes before it belong to the block. */
    method LocalAlloc(size: nat) returns (r: Option<nat>)
      requires Valid(memory.State())
      modifies memory
      ensures r.Some? ==> memory.buffer + 40 <= r.value
      ensures Allocates(old(memory.State()), size + 40,
                        if r.Some? then Some(r.value - 40 - memory.buffer) else None, memory.State())
      ensures r.Some? ==>
                var start := r.value - 40 - memory.buffer;
                memory.used[start] == Block(40 + size, false, start)
    {
      var memRes := memory.InternalAlloc(size + UD_OFFSET);
      if memRes.Some? {
        return Some(memory.buffer + memRes.value.offset + UD_OFFSET);
      }
      return None;
    }

    /** Takes the address of a payload and releases its whole block. */
    method LocalFree(ptr: nat)
      requires Valid(memory.State())
      requires memory.buffer + 40 <= ptr && ptr - 40 - memory.buffer in memory.used
      modifies memory
      ensures Releases(old(memory.State()), ptr - 40 - memory.buffer, memory.State())
    {
      var offset := ptr - memory.buffer - UD_OFFSET;
      memory.Free(offset);
    }
  }
}
