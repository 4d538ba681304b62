/** The raw boundary types of appbiotic-code-ffi: an owned byte buffer that
    releases its data when dropped, a referenced byte buffer that never
    does, and a NUL-terminated string that is null when the text cannot be
    represented. Memory is modelled abstractly: a `Heap` records the live
    raw allocations and the ones already released. */
module Ffi {
  import opened Wrappers

  /** `u8`. */
  newtype byte = b: int | 0 <= b < 256

  /** A raw address; `NULL` is the null pointer. */
  type Ptr = nat
  const NULL: Ptr := 0

  /** The string terminator. */
  const NUL: char := '\0'

  /** What a raw allocation holds: a leaked byte slice, or the characters of
      a C string including its terminator. */
  datatype Block = Bytes(bytes: seq<byte>) | CString(chars: string)

  /** A C string's characters: the text, with no terminator inside it,
      followed by one terminator. */
  predicate IsCString(chars: string)
  {
    |chars| > 0 && chars[|chars| - 1] == NUL && NUL !in chars[..|chars| - 1]
  }

  /** The allocator as this side of the boundary sees it. */
  class Heap {
    /** Live raw allocations and their contents. */
    var blocks: map<Ptr, Block>
    /** The next address handed out. */
    var next: Ptr
    /** Raw allocations already released. */
    ghost var released: set<Ptr>

    ghost predicate Valid()
      reads this
    {
      && NULL < next
      && NULL !in blocks
      && NULL !in released
      && (forall p :: p in blocks ==> p < next)
      && (forall p :: p in released ==> p < next)
      && blocks.Keys !! released
    }

    constructor ()
      ensures Valid()
      ensures blocks == map[] && released == {}
    {
      blocks := map[];
      next := 1;
      released := {};
    }

    /** Allocates a fresh, non-null block (never one released before). */
    method Allocate(b: Block) returns (p: Ptr)
      requires Valid()
      modifies this
      ensures Valid()
      ensures p != NULL && p !in old(blocks) && p !in released
      ensures blocks == old(blocks)[p := b]
      ensures released == old(released)
    {
      p := next;
      blocks := blocks[p := b];
      next := next + 1;
    }

    /** Releases a live allocation; it can never be released again. */
    method Release(p: Ptr)
      requires Valid()
      requires p in blocks
      modifies this
      ensures Valid()
      ensures p != NULL && p !in old(released)
      ensures blocks == old(blocks) - {p}
      ensures released == old(released) + {p}
    {
      blocks := blocks - {p};
      released := released + {p};
    }
  }

  /** `AppbioticCodeFfi_OwnedVec`: `{data, len}`, releasing `data` on drop. */
  class OwnedVec {
    var data: Ptr
    var len: nat
    /** The handle has not been dropped yet. */
    ghost var live: bool

    ghost predicate Valid(h: Heap)
      reads this, h
    {
      && live
      && (data == NULL ==> len == 0)
      && (data != NULL ==> data in h.blocks && h.blocks[data].Bytes? && |h.blocks[data].bytes| == len)
    }

    /** The bytes the handle gives access to. */
    function Contents(h: Heap): seq<byte>
      reads this, h
      requires Valid(h)
    {
      if data == NULL then [] else h.blocks[data].bytes
    }

    /** `Default`: a null pointer and length 0. */
    constructor Default()
      ensures data == NULL && len == 0 && live
      ensures forall h: Heap :: Valid(h) && Contents(h) == []
    {
      data, len, live := NULL, 0, true;
    }

    /** `From<Vec<u8>>`: the vector's storage is leaked into the handle, which
        now owns it; `len` is the vector's length. The allocation is non-null
        even for an empty vector. */
    constructor FromVec(h: Heap, v: seq<byte>)
      requires h.Valid()
      modifies h
      ensures h.Valid() && Valid(h)
      ensures data != NULL && data !in old(h.blocks)
      ensures len == |v| && Contents(h) == v
      ensures h.blocks == old(h.blocks)[data := Bytes(v)]
      ensures h.released == old(h.released)
    {
      var p := h.Allocate(Bytes(v));
      data, len, live := p, |v|, true;
    }

    /** `Drop`: releases `data` when it is non-null; a null handle releases
        nothing. The handle is gone afterwards. */
    method Drop(h: Heap)
      requires h.Valid() && Valid(h)
      modifies this, h
      ensures h.Valid() && !live
      ensures data == old(data) && len == old(len)
      ensures data == NULL ==> h.blocks == old(h.blocks) && h.released == old(h.released)
      ensures data != NULL ==> h.blocks == old(h.blocks) - {data} && h.released == old(h.released) + {data}
    {
      if data != NULL {
        h.Release(data);
      }
      live := false;
    }
  }

  /** `AppbioticCodeFfi_OwnedVec_Drop`: null is a no-op; otherwise the boxed
      handle is reclaimed, which drops it. */
  method OwnedVecDrop(h: Heap, ptr: OwnedVec?)
    requires h.Valid()
    requires ptr != null ==> ptr.Valid(h)
    modifies h, ptr
    ensures h.Valid()
    ensures ptr == null ==> h.blocks == old(h.blocks) && h.released == old(h.released)
    ensures ptr != null ==> !ptr.live && ptr.data == old(ptr.data) && ptr.len == old(ptr.len)
    ensures ptr != null && ptr.data == NULL ==> h.blocks == old(h.blocks) && h.released == old(h.released)
    ensures ptr != null && ptr.data != NULL ==>
      h.blocks == old(h.blocks) - {ptr.data} && h.released == old(h.released) + {ptr.data}
  {
    if ptr != null {
      ptr.Drop(h);
    }
  }

  /** `AppbioticCodeFfi_ReferencedVec`: the same `{data, len}` shape, but the
      memory belongs to the other side; there is no drop, so nothing here
      ever releases it. */
  class ReferencedVec {
    var data: Ptr
    var len: nat

    ghost predicate Valid(h: Heap)
      reads this, h
    {
      && (data == NULL ==> len == 0)
      && (data != NULL ==> data in h.blocks && h.blocks[data].Bytes? && |h.blocks[data].bytes| == len)
    }

    function Contents(h: Heap): seq<byte>
      reads this, h
      requires Valid(h)
    {
      if data == NULL then [] else h.blocks[data].bytes
    }

    /** `Default`: a null pointer and length 0. */
    constructor Default()
      ensures data == NULL && len == 0
      ensures forall h: Heap :: Valid(h) && Contents(h) == []
    {
      data, len := NULL, 0;
    }

    /** `From<Vec<u8>>`: like the owned buffer, the storage is leaked to the
        handle. */
    constructor FromVec(h: Heap, v: seq<byte>)
      requires h.Valid()
      modifies h
      ensures h.Valid() && Valid(h)
      ensures data != NULL && data !in old(h.blocks)
      ensures len == |v| && Contents(h) == v
      ensures h.blocks == old(h.blocks)[data := Bytes(v)]
      ensures h.released == old(h.released)
    {
      var p := h.Allocate(Bytes(v));
      data, len := p, |v|;
    }
  }

  /** `AppbioticCodeFfi_String`: a NUL-terminated character pointer. */
  class FfiString {
    var bytes: Ptr
    /** The handle has not been dropped yet. */
    ghost var live: bool

    ghost predicate Valid(h: Heap)
      reads this, h
    {
      && live
      && (bytes != NULL ==> bytes in h.blocks && h.blocks[bytes].CString? && IsCString(h.blocks[bytes].chars))
    }

    /** The text the pointer denotes, without its terminator; `None` for null. */
    function Text(h: Heap): Option<string>
      reads this, h
      requires Valid(h)
    {
      if bytes == NULL then None
      else
        var chars := h.blocks[bytes].chars;
        Some(chars[..|chars| - 1])
    }

    /** `Default`: the null pointer. */
    constructor Default()
      ensures bytes == NULL && live
      ensures forall h: Heap :: Valid(h) && Text(h) == None
    {
      bytes, live := NULL, true;
    }

    /** `From<String>`: a fresh C string holding the text, or null (and no
        allocation) when the text contains a terminator. */
    constructor FromString(h: Heap, text: string)
      requires h.Valid()
      modifies h
      ensures h.Valid() && Valid(h)
      ensures bytes == NULL <==> NUL in text
      ensures Text(h) == if NUL in text then None else Some(text)
      ensures bytes == NULL ==> h.blocks == old(h.blocks)
      ensures bytes != NULL ==> bytes !in old(h.blocks) && h.blocks == old(h.blocks)[bytes := CString(text + [NUL])]
      ensures h.released == old(h.released)
    {
      if NUL in text {
        bytes := NULL;
      } else {
        var p := h.Allocate(CString(text + [NUL]));
        assert (text + [NUL])[..|text|] == text;
        bytes := p;
      }
      live := true;
    }

    /** `Drop`: releases `bytes` when it is non-null. */
    method Drop(h: Heap)
      requires h.Valid() && Valid(h)
      modifies this, h
      ensures h.Valid() && !live
      ensures bytes == old(bytes)
      ensures bytes == NULL ==> h.blocks == old(h.blocks) && h.released == old(h.released)
      ensures bytes != NULL ==> h.blocks == old(h.blocks) - {bytes} && h.released == old(h.released) + {bytes}
    {
      if bytes != NULL {
        h.Release(bytes);
      }
      live := false;
    }
  }

  /** `AppbioticCodeFfi_String_drop`: null is a no-op; otherwise the boxed
      string is reclaimed, which drops it. */
  method StringDrop(h: Heap, ptr: FfiString?)
    requires h.Valid()
    requires ptr != null ==> ptr.Valid(h)
    modifies h, ptr
    ensures h.Valid()
    ensures ptr == null ==> h.blocks == old(h.blocks) && h.released == old(h.released)
    ensures ptr != null ==> !ptr.live && ptr.bytes == old(ptr.bytes)
    ensures ptr != null && ptr.bytes == NULL ==> h.blocks == old(h.blocks) && h.released == old(h.released)
    ensures ptr != null && ptr.bytes != NULL ==>
      h.blocks == old(h.blocks) - {ptr.bytes} && h.released == old(h.released) + {ptr.bytes}
  {
    if ptr != null {
      ptr.Drop(h);
    }
  }

  /** An owned buffer made from bytes, read back, then dropped once: the
      bytes come back in order and the allocation is released exactly once;
      a default buffer releases nothing. */
  method OwnedVecLifecycle(v: seq<byte>) returns (read: seq<byte>, n: nat)
    ensures read == v && n == |v|
  {
    var h := new Heap();
    var buffer := new OwnedVec.FromVec(h, v);
    read := h.blocks[buffer.data].bytes;
    n := buffer.len;
    ghost var p := buffer.data;
    OwnedVecDrop(h, buffer);
    assert p in h.released && p !in h.blocks;
    var empty := new OwnedVec.Default();
    OwnedVecDrop(h, empty);
    assert h.released == {p};
  }
}
